# Verified models of a Wayland compositor

This project models the core of the niri compositor in Dafny and proves what its parts promise. A
session lock must cover every screen before the client is told it is locked, and every output
redraws through a small state machine with timers. Outputs are placed without overlaps. Popup grabs
must agree with keyboard focus, and input must agree with what is drawn. GPUs come and go while
another session is active. Around these are smaller kernels: accessibility key grabs, pre-commit
hooks, the blur-region cache, frame timing, easing curves and scroll ticks.

Each component has a model on values, where runs are sequences of events, and where the program
updates fields in place also a class whose methods are proved against that model. Each class has a
`Valid()` invariant that holds at the start and that every handler keeps when its event can happen:

| component | model and theorems | class |
|---|---|---|
| session lock and redraw machine | `LockMachine`, `LockProofs`, `LockTheorems`, `LockHolder`, `LockingEnds`, `RedrawRequests`, `Pacing`, `OutputHistory` | `Compositor` |
| frame callbacks | `FrameCallbacks` | `FrameCallbacks` |
| output placement | `OutputNames`, `OutputPlacement`, `OutputOrder` | `OutputPlacement` |
| popup grabs and keyboard focus | `KeyboardFocus`, `FocusPriority` | `FocusHandlers` |
| hit testing and draw order | `HitTesting`, `WorkspaceGeometry`, `HitTheorems`, `ContentsTheorems` | (expressions only) |
| GPU bookkeeping | `GpuMachine`, `GpuTheorems`, `GpuReconfigure`, `GpuEvents` | `GpuDevices` |
| pre-commit hooks | `PreCommitHooks`, `SurfaceHistory` | `SurfaceHandlers` |
| accessibility keyboard monitor | `KeyboardMonitor`, `KeyboardHistory` | `KeyboardMonitor` |
| regions and the blur cache | `Regions`, `BlurCache` | `BlurCache` |
| frame clock, easing, scrolling | `FrameClock`, `Bezier`, `ScrollTracker` | in the same modules |

A reached `unreachable!()`, a failed `assert!` or a failed `unwrap` sets a `crashed` flag in the
model, and a reported internal error sets `complained`; that they stay false is proved. What the
kernel, the GPU, the clients and the clock do is a parameter of an event. Hash-map iteration orders
are parameters too, so results hold for every order. Durations and identifiers are unbounded
naturals, and 64-bit floats are reals.

## What turned out not to hold

Where the code does not meet a property in general, one lemma gives a case and another the exact
condition.

| property | case | exact condition |
|---|---|---|
| a vblank leaves no timer behind (one left behind reaches an `unreachable!()`) | `LockTheorems.RogueVBlankCrashes` | `LockTheorems.VBlankKeepsTimersExactlyWhen` |
| a confirmed lock covers the screen also on winit, where turning the monitors off keeps the last frame (the comment at `src/niri.rs:5530-5532` speaks of a TTY only) | `LockTheorems.WinitLocksOverASessionFrame` | `LockTheorems.RedrawExposesExactlyWhen` |
| placed outputs do not overlap (the check rounds the size, the geometry rounds it up) | `OutputPlacement.FractionalSizesCanOverlap` | `OutputPlacement.DisjointExactlyWhen` |
| a granted popup grab agrees with the focus | `KeyboardFocus.GrabInTheOverviewIsLost` | `KeyboardFocus.GrabAgreesExactlyWhen` |
| layers below the windows take input where they are drawn (while the overview closes they are drawn zoomed) | `HitTheorems.ClosingOverviewMisplacesInput` | `HitTheorems.AgreesExactlyWhen` |
| what is drawn on top takes the input (a hot corner takes it from the overlay layer) | `HitTheorems.HotCornerOverOverlay` | `HitTheorems.ContentsMatchExactlyWhen` |
| the window that takes the input is the one to activate | `HitTheorems.FullscreenWindowOverPopup` | `HitTheorems.InputWindowIsActivatedExactlyWhen` |
| the blur cache is up to date | `BlurCache.OvertakingChangeIsLost` | `BlurCache.ApplyKeepsCoherenceExactlyWhen` |
| devices after changing the ignored nodes do not depend on the hash order | `GpuReconfigure.ReconfiguringDependsOnTheOrder` | `GpuReconfigure.OrderIsIrrelevantExactlyWhen` |
| scrolling is conserved | `ScrollTracker.ClampingLosesATick` | `ScrollTracker.CallConservesExactlyWhen` |
| the next presentation time is monotone in the current time | `FrameClock.NextIsNotMonotone` | `FrameClock.MonotoneExactlyWhen` |

Adding a device trips the insert assertion in no run (`GpuTheorems.DmabufGlobalExactly`), as long as
udev announces a node once and reports changes of announced nodes only; what happens if it does not is
in `GpuTheorems.AnnouncingCrashesExactlyWhen` and `GpuTheorems.ChangeBeforeAnnouncement`.

The primary render node is not to be ignored, but still is when the configuration names the primary
node as well; `GpuTheorems.IgnoredExactly` says which nodes are.

## Model

| member | source | states |
|---|---|---|
| LockTheorems.LockedMeansEveryOutputShowsLock | src/niri.rs:5515-5566 | in every run on every backend, while the lock is confirmed every output's render state is locked |
| LockTheorems.LockedIsSentOnlyWhenShown | src/niri.rs:5542-5566 | the `locked` event goes to the one lock object that then holds the lock, at a moment when every output shows the lock |
| LockTheorems.LockingStartsExactlyWhen | src/niri.rs:6784-6836 | locking starts exactly at the deadline, or at the commit or removal after which every output has a mapped lock surface |
| LockTheorems.LockedUntilUnlocked | src/niri.rs:6838-6850 | nothing but an unlock request ends a confirmed lock |
| LockHolder.HolderExactly | src/niri.rs:6733-6750 | over any run without an unlock request, a confirmed lock is held by the object of the last request made over a dead holder, or else by its first holder; exactly those requests are told `locked` and exactly the others `finished` |
| LockHolder.LiveHolderIsNotReplaced | src/niri.rs:6733-6750 | while its client lives a holder is never replaced, and every request is refused |
| LockHolder.FirstRequestKeepsTheLock | src/niri.rs:6722-6732 | as long as a lock is being worked on it is the one requested first, and every request since has been refused |
| LockHolder.FirstRequestWins | src/niri.rs:6722-6732 | any event leaves the object being worked on alone, or gives it its answer |
| LockHolder.RequestOnUnlockedSession | src/niri.rs:6752-6782 | a request on an unlocked session is granted at once exactly if there is no output, and otherwise worked on with a fresh deadline |
| LockTheorems.AnswersConserved | src/niri.rs:6722-6850 | the lock objects answered or undecided after a run are those before it and those requested in it |
| LockTheorems.EveryLockAnsweredOnce | src/niri.rs:6722-6850 | each requested lock object is told `locked`, or `finished`, or is still being worked on, and never two of these |
| LockTheorems.NoSessionFrameWhileLocked | src/niri.rs:5515-5539 | while locked no screen shows a session frame, in every TTY run and in runs of the other backends that keep the monitors on |
| LockTheorems.WinitLocksOverASessionFrame | src/niri.rs:5530-5539 | a winit run after which the lock is confirmed while the screen shows the session |
| LockTheorems.RedrawExposesExactlyWhen | src/niri.rs:5466-5566 | a redraw marks an output locked over a session frame exactly when monitors are off, the session is locked and the frame was left there |
| LockTheorems.TimerDiscipline | src/backend/tty.rs:2956-2999 | without rogue vblanks: nothing crashes, live estimated-vblank timers are exactly the stored tokens, and the deadline is live exactly while surfaces are awaited |
| LockTheorems.VBlankKeepsTimersExactlyWhen | src/backend/tty.rs:1720-1737 | a vblank keeps that exactly if its output stores no timer; otherwise firing the timer left behind crashes |
| LockTheorems.RogueVBlankCrashes | src/backend/tty.rs:1801-1832 | a run from the start in which a rogue vblank brings the compositor down |
| LockTheorems.NoRedrawRequestIsLost | src/niri.rs:698-717 | from a request until the redraw starts or the output goes, across any events, a redraw stays marked as pending |
| RedrawRequests.RedrawnExactlyWhenRequested | src/backend/tty.rs:1720-1832 | across any run while an output waits, the vblank or timer that ends the wait queues it exactly if a redraw was pending, or some event requested one, or animations go on |
| RedrawRequests.StepMarks | src/niri.rs:4290-4300 | which events request a redraw of an output: exactly those mark it |
| Pacing.FramesBalance | src/backend/tty.rs:1966-1979 | over any run on a TTY, submissions of an output and its expected vblanks balance, up to the frame in flight |
| Pacing.OneFramePerVBlank | src/backend/tty.rs:1966-1979 | an output is handed at most one frame more than it has vblanks |
| Pacing.AwaitsUntilVBlank | src/niri.rs:698-717 | after a submission an output awaits its vblank until one comes, and is not redrawn meanwhile |
| Pacing.RedrawLeavesWaiting | src/backend/tty.rs:1958-2010 | a redraw leaves an output waiting for a vblank exactly after a submission, and for a live timer after a render that brought nothing to the display |
| Pacing.HoldsTimerUntilItFires | src/backend/tty.rs:2956-2999 | that timer stays live until it fires, a vblank comes, a frame is submitted or the output goes |
| OutputHistory.HistoryOfOutputs | src/niri.rs:3080-3111 | after any run the outputs are those added and not removed, and the monitors are as last switched |
| OutputHistory.MemoryStep | src/niri.rs:5484-5539 | an output's lock surface changes only when its locker brings one and goes with the lock, its animations are those of its last redraw, its render state says whether the session was locked when last drawn |
| OutputHistory.NoSurfaceWithoutALock | src/niri.rs:6838-6850 | in every run an unlocked session has no lock surfaces |
| OutputHistory.NewOutput | src/niri.rs:3055-3084 | a new output is queued, shows nothing, and counts as locked exactly in a locked session |
| LockTheorems.RedrawSpendsBudget | src/niri.rs:5466-5566 | each redraw lowers the measure of queued outputs, plus all outputs while locking |
| LockTheorems.RedrawSurvives | src/niri.rs:5466-5566 | a redraw of a queued output never crashes on any backend |
| LockTheorems.RedrawLoopEnds | src/niri.rs:4302-4315 | a sequence of redraws is at most twice as long as there are outputs, although a failed lock re-queues all |
| LockTheorems.LockingNeverStalls | src/niri.rs:6807-6836 | while locking, some output is about to be redrawn, and so is every output that still shows the session |
| LockTheorems.LockingWaitsOnlyForVBlanks | src/niri.rs:4302-4315 | after the redraw loop only a page flip can keep the session locking, on a TTY |
| LockingEnds.LockingEndsAfterVBlanks | src/niri.rs:5541-5566 | while locking, once every output that waits for a vblank has had one, the redraw loop confirms the lock for its requester or fails it, whatever each redraw yields |
| LockProofs.LockKeeps | src/niri.rs:6722-6782 | a lock request keeps the lock and timer invariants: confirmed only over locked outputs, one answer per lock object, the deadline live exactly while surfaces are awaited |
| LockProofs.ContinueToLockingKeeps | src/niri.rs:6807-6836 | leaving the wait for surfaces drops the deadline, queues every output and keeps both invariants |
| LockProofs.UnlockKeeps | src/niri.rs:6838-6850 | unlocking from any lock state re-establishes the lock invariant and keeps the timers |
| LockProofs.AddOutputKeeps | src/niri.rs:3055-3085 | an output added at any moment keeps both, since it counts as locked until first drawn |
| LockProofs.RemoveOutputKeeps | src/niri.rs:3101-3168 | a removed output takes its timer along and may complete the lock, keeping both |
| LockProofs.RenderKeeps | src/backend/tty.rs:1849-2010 | rendering with any outcome keeps the timer invariant and reaches no `unreachable!()` |
| LockProofs.RedrawKeeps | src/niri.rs:5466-5566 | a whole redraw, failed locks and confirmation included, keeps both |
| LockProofs.FireTimerKeeps | src/backend/tty.rs:1801-1832 | a firing deadline or estimated-vblank timer keeps both |
| LockProofs.StepKeeps | src/niri.rs:3055-3168 | every event keeps both |
| Compositor.Niri.QueueRedraws | src/niri.rs:4290-4300 | queues exactly the given outputs as the redraw state machine says |
| Compositor.Niri.Lock | src/niri.rs:6722-6782 | the fields afterwards: a request is finished at once while another is worked on or held by a live client, confirmed over a dead one or without outputs, and otherwise waits with a deadline |
| Compositor.Niri.ContinueToLocking | src/niri.rs:6807-6836 | the fields afterwards: the deadline is gone, and every output is queued, or the lock confirmed if there is none |
| Compositor.Niri.MaybeContinueToLocking | src/niri.rs:6784-6805 | the loop does so exactly if every output has a mapped lock surface |
| Compositor.Niri.Unlock | src/niri.rs:6838-6850 | the fields afterwards: no lock, deadline or lock surfaces, an undecided object finished, every output queued |
| Compositor.Niri.NewLockSurface | src/niri.rs:6931-6953 | stores the surface for the lock's own client only |
| Compositor.Niri.LockSurfaceCommit | src/handlers/compositor.rs:461-474 | while waiting it may start locking, otherwise it queues the output |
| Compositor.Niri.AddOutput | src/niri.rs:3055-3085 | the fields afterwards: one more output, queued with the moved ones; crashes on a tracked one |
| Compositor.Niri.RemoveOutput | src/niri.rs:3101-3168 | the fields afterwards: output and timer gone, the lock rechecked; crashes on an untracked one |
| Compositor.Niri.QueueEstimatedVBlankTimer | src/backend/tty.rs:2956-2999 | keeps a stored timer, or inserts one; crashes when idle or waiting for a vblank |
| Compositor.Niri.TtyRender | src/backend/tty.rs:1849-2010 | redraw state, timers, sequence and shown frame after each outcome of rendering on a TTY |
| Compositor.Niri.DirectRender | src/backend/winit.rs:285-294 | the same on winit and headless, where the output becomes idle at once |
| Compositor.Niri.Redraw | src/niri.rs:5466-5566 | all fields after a redraw: skipped renders, lock render state, failed or completed lock |
| Compositor.Niri.RedrawQueuedOutputs | src/niri.rs:4302-4315 | terminates, runs only redraws of queued outputs, leaves none queued and keeps `Valid()`, whatever each redraw yields |
| Compositor.Niri.OnVBlank | src/backend/tty.rs:1720-1798 | queued again if requested, rogue or animating, otherwise idle |
| Compositor.Niri.OnEstimatedVBlankTimer | src/backend/tty.rs:1801-1832 | bumps the sequence and ends the wait; crashes in the unreachable states |
| Compositor.Niri.DeactivateMonitors | src/niri.rs:3225-3232 | turns monitors off and blanks screens on a TTY only |
| Compositor.Niri.ActivateMonitors | src/niri.rs:3234-3243 | turns monitors on and queues every output |
| Compositor.Niri.Resume | src/backend/tty.rs:731-741 | turns monitors on and queues every output in any case |
| FrameCallbacks.SurfaceThrottle.ShouldSend | src/niri.rs:5913-5944 | accepts exactly on the primary output at a sequence number other than the last, and remembers it |
| FrameCallbacks.SequenceMovesOnlyOnRefresh | src/backend/tty.rs:1981-1987 | an output's sequence number moves only on a submission or a fired timer |
| FrameCallbacks.RefreshMovesSequence | src/backend/tty.rs:1812-1813 | and then it does move, wrap-around included |
| FrameCallbacks.OneCallbackPerCycle | src/niri.rs:5907-5944 | over any run a new surface gets at most one callback more than its output has refresh cycles |
| FrameCallbacks.NextCallbackExactlyWhen | src/niri.rs:5913-5944 | a surface that was sent a callback is sent the next one exactly if its output has had a refresh cycle since, short of a whole turn of the sequence number |
| FrameCallbacks.SequenceCounts | src/backend/tty.rs:1981-1987 | the sequence number counts refresh cycles up to its wrap-around |
| FrameCallbacks.FirstCallback | src/niri.rs:5913-5944 | a surface sent none, or one elsewhere, is sent one on its primary output and on no other |
| OutputNames.NamesOrdered | crates/niri-config/src/output.rs:247-263 | names compare equal only if they are equal, and comparing the other way around gives the reverse |
| OutputNames.NamesTransitive | crates/niri-config/src/output.rs:247-263 | the comparison is transitive |
| OutputOrder.NamesCompareExactly | crates/niri-config/src/output.rs:247-263 | outputs without make, model and serial come last; make, model and serial decide before the connector, in this order and lexicographically |
| OutputPlacement.PlacementIgnoresArrivalOrder | src/niri.rs:2911-2934 | any permutation of the same distinctly named outputs gets the same order and positions |
| OutputOrder.PlacedInOrder | src/niri.rs:2921-2924 | outputs with a configured position come first, and within each group names ascend |
| OutputOrder.UnconfiguredDoNotMatter | src/niri.rs:2923-2991 | configured outputs are placed as if there were no others |
| OutputOrder.ConfiguredPositionExactlyWhen | src/niri.rs:2936-2991 | an output gets its configured position exactly if it is free of the configured outputs with smaller names |
| OutputOrder.RoundedExactly | src/niri.rs:2944-2950 | the checked size is the nearest whole number, and the geometry the least that is not smaller |
| OutputPlacement.WhereAnOutputGoes | src/niri.rs:2936-2991 | an output gets its configured position exactly if that is free of earlier ones; otherwise it goes right of all of them, touching one |
| OutputPlacement.EarlierOutputsClearOfTarget | src/niri.rs:2936-2991 | earlier outputs never overlap the rectangle that was checked for a later one |
| OutputPlacement.DisjointExactlyWhen | src/niri.rs:2936-2991 | outputs are pairwise disjoint exactly when no configured output fits with its rounded size where its rounded-up size does not, next to outputs placed by the latter |
| OutputPlacement.WholeSizesNeverOverlap | src/niri.rs:2936-2991 | with whole logical sizes they are always disjoint |
| OutputPlacement.FractionalSizesCanOverlap | src/niri.rs:2944-2956 | for any two names, outputs that overlap after repositioning, in either order of arrival |
| OutputPlacement.RepositionIsStable | src/niri.rs:2884-3004 | placing placed outputs again, in any order, gives the same positions |
| OutputPlacement.MovedExactly | src/niri.rs:2993-3003 | the outputs reported as moved are exactly those new or with a new position |
| OutputPlacement.SecondCallMovesNothing | src/niri.rs:2884-3004 | a second call moves nothing |
| OutputPlacement.GlobalSpace.RepositionOutputs | src/niri.rs:2884-3004 | the loops compute that placement from the current space, and the moved outputs |
| OutputPlacement.GlobalSpace.HasRoomFor | src/niri.rs:2949-2977 | the overlap loop decides freedom from all placed outputs |
| OutputPlacement.GlobalSpace.FindRightEdge | src/niri.rs:2979-2989 | the loop finds the right edge of all placed outputs |
| KeyboardFocus.GrabAgreesExactlyWhen | src/handlers/xdg_shell.rs:269-407 | a granted keyboard grab's root is the focus computed next, exactly under a condition on lock, switcher, overview, layer and on-demand focus |
| KeyboardFocus.GrabStoredExactlyWhen | src/handlers/xdg_shell.rs:276-407 | a grab is stored exactly if the ladder, the popup and the seat's related pointer and keyboard grabs allow it; nothing else changes |
| KeyboardFocus.RefusedGrabs | src/handlers/xdg_shell.rs:276-352 | over a modal interface, another lock surface, without an output or within the backdrop no grab is stored |
| KeyboardFocus.GrabInTheOverviewIsLost | src/handlers/xdg_shell.rs:296-297 | a grab that is granted in the overview and taken away by the next update |
| KeyboardFocus.GrabSurvivesExactlyWhen | src/niri.rs:1406-1423 | the grab survives the next update exactly if they agree or the focus does not change |
| KeyboardFocus.GrabLostExactlyWhen | src/niri.rs:1406-1423 | any grab is lost exactly if it has the keyboard and the focus moves to another surface |
| KeyboardFocus.FocusedRootMayGrab | src/handlers/xdg_shell.rs:276-349 | the surface that has the focus is not refused a grab |
| KeyboardFocus.UpdateIsIdempotent | src/niri.rs:1211-1466 | updating the focus twice is updating it once |
| FocusPriority.FocusExactly | src/niri.rs:1234-1344 | the focus goes to what is present with the least rank in a table of dialogs, grabs, exclusive and on-demand surfaces by layer, windows and overview; of exclusive surfaces to the first |
| FocusPriority.SomethingIsBest | src/niri.rs:1234-1344 | there always is such a candidate |
| KeyboardFocus.UnblockedLayerHasNoFocus | src/handlers/xdg_shell.rs:313-336 | a layer that does not block a window's grab has no surface to focus |
| KeyboardFocus.FirstOnDemandExactly | src/niri.rs:1290-1298 | the search finds the on-demand surface exactly if it is on that layer |
| KeyboardFocus.FirstExclusiveExactly | src/niri.rs:1272-1288 | the search finds an exclusive, mapped, non-backdrop surface exactly if there is one |
| FocusHandlers.Seat.UpdateKeyboardFocus | src/niri.rs:1211-1466 | drops stale on-demand focus, computes the focus and drops a keyboard grab whose root lost it; another update would change nothing |
| FocusHandlers.Seat.CurrentFocus | src/niri.rs:1234-1344 | the chain of alternatives yields the focus that `FocusPriority.FocusExactly` characterises |
| FocusHandlers.Seat.Grab | src/handlers/xdg_shell.rs:269-407 | stores a grab exactly if the ladder and the seat allow it, with the keyboard unless an input method or the layer prevents it |
| FocusHandlers.Seat.LadderRefuses | src/handlers/xdg_shell.rs:276-349 | the checks with their loops refuse exactly the roots that may not grab |
| HitTheorems.UnderIsFirstDrawn | src/niri.rs:3484-3659 | with the overview open, or nothing zoomed, what receives input is the topmost drawn item under the point that takes input, for any layers, workspaces and scrolling |
| HitTheorems.AgreesExactlyWhen | src/niri.rs:5276-5313 | a monitor with a workspace in view draws every surface and window where it takes input, whatever is on it, exactly when the overview is open or the zoom is one |
| HitTheorems.ClosingOverviewMisplacesInput | src/layout/mod.rs:5043-5058 | on an output 1000 wide with the overview closed and half the size, a bar drawn from 250 to 300 takes input up to 350 |
| HitTheorems.DrawnInPlace | src/niri.rs:7523-7533 | without zoom, scaling, relocating and cropping an element leaves it where the hit test looks for it |
| HitTheorems.FillsTheView | src/layout/monitor.rs:1498-1545 | without zoom each workspace fills the width, at a whole number of steps from the others |
| HitTheorems.OneSpans | src/layout/monitor.rs:1595-1613 | without zoom at most one workspace spans a point |
| WorkspaceGeometry.CentredInTheView | src/layout/monitor.rs:1498-1545 | under any zoom each workspace is the view scaled, centred from left to right, and whole steps from the middle from top to bottom |
| WorkspaceGeometry.ShareExactlyWhen | src/layout/monitor.rs:1498-1545 | two workspaces share a height of the view exactly if their own zooms more than fill the distance between them |
| WorkspaceGeometry.UnderExactly | src/layout/monitor.rs:1595-1613 | of the workspaces that span a point the one drawn last is under it, and none exactly if none spans it |
| HitTheorems.StandsStill | src/layout/monitor.rs:1707-1716 | a monitor that renders above the top layer has a workspace at the origin under every point |
| HitTheorems.StillMonitorIsValid | src/layout/monitor.rs:1498-1545 | the assumptions on a monitor are met, with and without rendering above the top layer |
| HitTheorems.UnderIsFirstVisible | src/niri.rs:5243-5321 | with the overview closed and nothing zoomed it is what is seen on top, except for the backdrop |
| HitTheorems.ContentsMatchExactlyWhen | src/niri.rs:3620-3624 | then the reported contents match the draw order exactly off hot corners, or where nothing is drawn |
| ContentsTheorems.ContentsExactly | src/niri.rs:3505-3659 | what is reported for the topmost drawn item that takes input: its surface at its position plus that of the output, its layer surface or window, nothing under modal interfaces, only the flag on a hot corner |
| ContentsTheorems.MovingTheOutput | src/niri.rs:3651-3653 | moving the output moves the reported surface along and changes nothing else |
| HitTheorems.HotCornerOverOverlay | src/niri.rs:3620-3624 | an output with a surface on the overlay layer that is drawn but gets no input |
| HitTheorems.DrawnPerWorkspace | src/niri.rs:5289-5313 | of the copies drawn per workspace, only the one of the workspace that spans the point is hit |
| HitTheorems.StickyObscuredExactly | src/niri.rs:3301-3353 | that check is exactly a hit on the overlay layer, or below the top layer a hot corner or a hit on the top layer |
| HitTheorems.ActivatedWindowReceivesInput | src/niri.rs:3439-3467 | the window to activate is the window that receives input |
| HitTheorems.InputWindowIsActivatedExactlyWhen | src/niri.rs:3439-3467 | the converse holds exactly unless windows are above the top layer over a popup of a lower layer |
| HitTheorems.FullscreenWindowOverPopup | src/niri.rs:3355-3397 | an output with such a case |
| GpuTheorems.DmabufGlobalExactly | src/backend/tty.rs:1167-1219 | in every run nothing crashes or complains, the dmabuf global exists exactly while a device uses the primary render node, and render nodes in use are known |
| GpuTheorems.ResumeExactly | src/backend/tty.rs:613-741 | which nodes are devices after resuming, with which render nodes, whatever fails and in whatever hash orders; no assertion and no unwrap fails |
| GpuTheorems.ResumeWithoutPrimaryRenderer | src/backend/tty.rs:825-833 | if nothing brings up the primary renderer, exactly the nodes on it stay out, and those without a renderer unless the primary device is there otherwise; no dmabuf global exists |
| GpuTheorems.ResumeLeavesTheListedNodes | src/backend/tty.rs:613-741 | when every node opens with a renderer, exactly the listed non-ignored primary-type nodes are devices |
| GpuTheorems.AddAllExactly | src/backend/tty.rs:717-729 | when adding one by one, a node's fate depends on the order only through the primary node, and the primary renderer, coming up earlier |
| GpuTheorems.RenderNodeDroppedWithLastUser | src/backend/tty.rs:1167-1219 | a render node is dropped only by a step that takes away its last user |
| GpuTheorems.RenderNodesExactly | src/backend/tty.rs:789-823 | while renderers work, the known render nodes are exactly those in use, in every run |
| GpuTheorems.LeaksExactlyWhen | src/backend/tty.rs:825-833 | adding a device leaves an unused render node exactly if the primary renderer fails to come up |
| GpuTheorems.AnnouncingCrashesExactlyWhen | src/backend/tty.rs:935-935 | in any state and without the discipline of udev, the insert assertion fails exactly for an announced node that is a device and whose adding reaches the insertion |
| GpuTheorems.ChangeBeforeAnnouncement | src/backend/tty.rs:942-972 | outside any run: if udev reported a change of a node before announcing it, the assertion would fail |
| GpuTheorems.IgnoredExactly | src/backend/tty.rs:2302-2310 | which nodes are ignored |
| GpuReconfigure.ReconfiguringDependsOnTheOrder | src/backend/tty.rs:2312-2356 | a state with two hash orders that leave different devices |
| GpuReconfigure.ReconfigureExactly | src/backend/tty.rs:2312-2356 | which nodes are devices after changing the ignored nodes, with which render nodes, whatever fails, for a given hash order |
| GpuReconfigure.OrderIsIrrelevantExactlyWhen | src/backend/tty.rs:2312-2356 | all hash orders give the same devices exactly when nothing changes, or no node without a renderer is new beside a primary node that joins, and none that fails to bring up the primary renderer is beside one that does while it is down |
| GpuTheorems.StartsGood | src/backend/tty.rs:518-557 | start-up establishes the invariants of `DmabufGlobalExactly` |
| GpuEvents.InitExactly | src/backend/tty.rs:518-557 | which nodes are devices after start-up, with the primary node first; none in an inactive session |
| GpuEvents.AddedEventExactly | src/backend/tty.rs:563-576 | the devices, list and ignored nodes after an announcement |
| GpuEvents.ChangedEventExactly | src/backend/tty.rs:577-584 | the devices after a change |
| GpuEvents.RemovedEventExactly | src/backend/tty.rs:585-592 | the devices and list after a removal |
| GpuEvents.HistoryOfSession | src/backend/tty.rs:561-618 | after any run the session is active as last paused or resumed, and the list holds the nodes announced and not removed since |
| GpuEvents.NothingHappensInTheBackground | src/backend/tty.rs:561-612 | from a pause until the next activation no device, render node or ignored node changes, whatever udev and the configuration say |
| GpuTheorems.ActivateKeeps | src/backend/tty.rs:613-741 | resuming keeps them, with any failures and in any hash order |
| GpuTheorems.UpdateIgnoredKeeps | src/backend/tty.rs:2312-2356 | changing the ignored nodes keeps them, with any failures and in any hash order |
| GpuDevices.Tty.DeviceAdded | src/backend/tty.rs:745-940 | the fields after each outcome of opening: skipped, failed with or without a leaked render node, no allocator, inserted, or crashed |
| GpuDevices.Tty.DeviceChanged | src/backend/tty.rs:942-972 | adds an unknown device |
| GpuDevices.Tty.DeviceRemoved | src/backend/tty.rs:1132-1237 | the fields afterwards: the render node and the global go with the last user, a missing global is reported |
| GpuDevices.Tty.OnUdevAdded | src/backend/tty.rs:563-576 | adds the node if the session is active, with freshly computed ignored nodes, and keeps `Valid()` for a new node |
| GpuDevices.Tty.OnUdevChanged | src/backend/tty.rs:577-584 | adds an unknown listed node if the session is active, and keeps `Valid()` |
| GpuDevices.Tty.OnUdevRemoved | src/backend/tty.rs:585-592 | removes the device if the session is active, and keeps `Valid()` |
| GpuDevices.Tty.OnPauseSession | src/backend/tty.rs:600-612 | events are skipped from now on |
| GpuDevices.Tty.OnInit | src/backend/tty.rs:518-557 | start-up adds the primary node first, and nothing in an inactive session |
| GpuDevices.Tty.OnActivateSession | src/backend/tty.rs:613-741 | the loops remove gone and ignored devices, keep the rest and add the new ones, primary first |
| GpuDevices.Tty.UpdateIgnoredNodesConfig | src/backend/tty.rs:2312-2356 | the loops do so for a changed set only, without an order |
| GpuDevices.Tty.ComputeIgnoredNodes | src/backend/tty.rs:2302-2310 | takes out the primary node or, only if it was not there, its render node |
| PreCommitHooks.HooksExactly | src/handlers/compositor.rs:530-586 | in every run the default hooks are on exactly the live surfaces that are not mapped toplevels, one hook is attached to each live surface, and no error is reported |
| PreCommitHooks.NothingIsLeftBehind | src/handlers/compositor.rs:481-513 | when all objects are gone, so is every entry |
| SurfaceHistory.MappedExactlyWhen | src/handlers/compositor.rs:79-320 | after any run a toplevel is in the layout exactly if its last root commit mapped it, and unmapped exactly if it has had none or that unmapped it |
| SurfaceHistory.HistoryOfSurfaces | src/handlers/compositor.rs:66-74 | the cached root is that of the last commit while both surfaces live, and the live surfaces are those created and not destroyed |
| PreCommitHooks.DestructionOrderIsIrrelevant | src/handlers/xdg_shell.rs:820-872 | surface and toplevel may be destroyed in either order with the same result |
| PreCommitHooks.MapKeeps | src/handlers/compositor.rs:79-202 | mapping a toplevel exchanges the default hook for its own and keeps the invariant |
| PreCommitHooks.UnmapKeeps | src/handlers/compositor.rs:285-320 | unmapping exchanges them back and keeps it |
| PreCommitHooks.DestroyToplevelKeeps | src/handlers/xdg_shell.rs:820-872 | destroying a toplevel, mapped or not, of a live or dead surface keeps it |
| PreCommitHooks.DestroySurfaceKeeps | src/handlers/compositor.rs:481-513 | destroying a surface, before or after its toplevel, keeps it |
| SurfaceHandlers.Handlers.AddDefaultDmabufPreCommitHook | src/handlers/compositor.rs:530-577 | attaches one hook and records it; reports a dead surface, and replaces and reports an earlier hook |
| SurfaceHandlers.Handlers.RemoveDefaultDmabufPreCommitHook | src/handlers/compositor.rs:579-585 | detaches the recorded hook, or reports that there is none |
| SurfaceHandlers.Handlers.NewSurface | src/handlers/compositor.rs:53-55 | a new surface is alive with the default hook |
| SurfaceHandlers.Handlers.NewToplevel | src/handlers/xdg_shell.rs:57-62 | the surface becomes an unmapped window; crashes if it was one |
| SurfaceHandlers.Handlers.Commit | src/handlers/compositor.rs:57-320 | caches the root, and for a root surface maps or unmaps its toplevel, exchanging hooks |
| SurfaceHandlers.Handlers.ToplevelDestroyed | src/handlers/xdg_shell.rs:820-872 | forgets the toplevel, and gives a live mapped surface the default hook back |
| SurfaceHandlers.Handlers.SurfaceDestroyed | src/handlers/compositor.rs:481-513 | forgets the surface, its default hook if any, and every cached root that mentions it |
| KeyboardMonitor.SuppressedExactly | src/dbus/freedesktop_a11y.rs:216-314 | suppressed keys are exactly those with a blocked press that no release has followed |
| KeyboardMonitor.ReleaseBlockedExactlyWhen | src/dbus/freedesktop_a11y.rs:216-314 | a release is blocked exactly if a press of its key was blocked since the key's previous release, in any run |
| KeyboardMonitor.ReleaseFollowsItsPress | src/dbus/freedesktop_a11y.rs:216-314 | when presses and releases alternate, a release is blocked exactly if its press was |
| KeyboardMonitor.PressBlockedExactlyWhen | src/dbus/freedesktop_a11y.rs:216-353 | after any run, a press is blocked exactly if it is no quick second press of a listed modifier, and its key is still withheld, or a client grabs everything, lists it, or has a modifier withheld |
| KeyboardHistory.LastPressExactly | src/dbus/freedesktop_a11y.rs:216-314 | the remembered time is that of the last press of the key while it was a grabbed modifier, and zero if there was none |
| KeyboardHistory.ClientsExactly | src/dbus/freedesktop_a11y.rs:71-186 | each client's grabs are those it last asked for, unless it disappeared since |
| KeyboardHistory.VerdictExactly | src/dbus/freedesktop_a11y.rs:216-314 | a withheld key is reported as a modifier exactly if some client has asked for it as one |
| KeyboardMonitor.ModsAlwaysInStep | src/dbus/freedesktop_a11y.rs:317-324 | the grabbed modifiers are always the union of the clients' |
| KeyboardMonitor.ModifierPress | src/dbus/freedesktop_a11y.rs:216-314 | a grabbed modifier's press passes exactly if it follows the previous one within the repeat delay |
| KeyboardMonitor.Monitor.ProcessKey | src/dbus/freedesktop_a11y.rs:216-314 | suppressed keys, press times and verdict after a key event |
| KeyboardMonitor.Monitor.SetKeyGrabs | src/dbus/freedesktop_a11y.rs:165-186 | replaces the client's grabs and rebuilds the grabbed modifiers |
| KeyboardMonitor.Monitor.RebuildGrabbedMods | src/dbus/freedesktop_a11y.rs:318-323 | the loop computes the union |
| KeyboardMonitor.Monitor.ClientShouldGrab | src/dbus/freedesktop_a11y.rs:327-353 | the loops decide exactly whether the client grabs the key |
| KeyboardMonitor.Monitor.GrabKeyboard | src/dbus/freedesktop_a11y.rs:71-89 | the client, known or new, grabs every key from now on; other clients are untouched |
| KeyboardMonitor.Monitor.UngrabKeyboard | src/dbus/freedesktop_a11y.rs:91-110 | a known client no longer grabs every key |
| KeyboardMonitor.Monitor.ClientDisappeared | src/dbus/freedesktop_a11y.rs:391-397 | forgets the client and its modifiers |
| Regions.RegionToNonOverlappingRects | src/utils/region.rs:94-195 | the rectangles are non-empty, do not overlap and cover exactly the region's points |
| Regions.AddedIsUnion | src/utils/region.rs:137-160 | adding a span covers the union |
| Regions.SubtractedIsDifference | src/utils/region.rs:161-185 | subtracting a span covers the difference |
| Regions.AddSpan | src/utils/region.rs:137-160 | the in-place loop computes that addition |
| Regions.SubtractSpan | src/utils/region.rs:161-185 | the in-place loop computes that subtraction |
| Regions.SweptExact | src/utils/region.rs:94-195 | the bands together cover exactly the region |
| BlurCache.LookupIsRecomputation | src/handlers/background_effect.rs:35-47 | when no change overtakes a commit, a lookup in any run equals recomputing from the current region |
| BlurCache.LookupCoversTheRegion | src/handlers/background_effect.rs:49-73 | and its rectangles cover that region exactly, without overlaps |
| BlurCache.PendingDirtyExactlyWhen | src/handlers/background_effect.rs:75-108 | the pending flag says exactly that a change was requested since the last applied commit |
| BlurCache.ApplyKeepsCoherenceExactlyWhen | src/handlers/background_effect.rs:91-105 | in any run, an applied commit keeps the cache coherent exactly when marked, dirty, or without a change in rectangles |
| BlurCache.OvertakingChangeIsLost | src/handlers/background_effect.rs:75-108 | a run after which the lookup returns the rectangles of a region that was unset |
| BlurCache.Surface.GetCachedBlurRegion | src/handlers/background_effect.rs:35-47 | recomputes only when dirty, and returns what it stores |
| BlurCache.Surface.RecomputeBlurRegion | src/handlers/background_effect.rs:49-73 | the rectangles become those of the current region, or none |
| BlurCache.Surface.ChangeRegion | src/handlers/background_effect.rs:75-89 | the pending region changes, the pending flag is set and the hook registered |
| FrameClock.NextIsAhead | src/frame_clock.rs:56-97 | the next presentation is not before now and strictly after the last one |
| FrameClock.NextIsTheNextGridPoint | src/frame_clock.rs:56-97 | at a fixed rate it is the first point of the grid after now |
| FrameClock.NextAfterEarlyVBlank | src/frame_clock.rs:68-82 | after an early vblank it is one or two intervals after the last |
| FrameClock.VariableRate | src/frame_clock.rs:56-97 | with a variable rate it is the later of now and one interval after the last, early vblanks included |
| FrameClock.MonotoneExactlyWhen | src/frame_clock.rs:56-97 | a later time gives no earlier prediction exactly with a variable rate, or unless the first time skips an interval and the second, still before the skipped point, does not |
| FrameClock.NextIsNotMonotone | src/frame_clock.rs:56-97 | it can step back as time goes on |
| FrameClock.FrameClock.NextPresentationTime | src/frame_clock.rs:56-97 | computes that time |
| FrameClock.FrameClock.Presented | src/frame_clock.rs:47-54 | stores a non-zero presentation time |
| FrameClock.FrameClock.SetVrr | src/frame_clock.rs:34-41 | changes the mode and forgets the last presentation |
| FrameClock.RefreshInterval | src/backend/tty.rs:2916-2938 | the interval is the nearest whole number of nanoseconds |
| FrameClock.FrameTime | src/backend/tty.rs:2916-2934 | the ratio that is rounded: lines and columns per clock, times the scans, over the fields |
| FrameClock.ModeIsAcceptedExactlyWhen | src/frame_clock.rs:14-27 | a clock accepts a mode's interval exactly when a frame takes at least half a nanosecond and less than a second less half a nanosecond |
| Bezier.CoordinateIncreases | src/animation/bezier.rs:19-27 | with control values in [0, 1] a coordinate grows strictly along the curve |
| Bezier.ResultIsBracketed | src/animation/bezier.rs:29-47 | the bisection ends with a bracket of width 2^-31 around x |
| Bezier.ResultIsNearThePreimage | src/animation/bezier.rs:29-47 | its result is within 2^-32 of the exact preimage |
| Bezier.BisectionKeepsOrder | src/animation/bezier.rs:29-47 | a larger x gives no smaller t |
| Bezier.EaseInRange | src/animation/bezier.rs:49-59 | the easing stays in [0, 1] |
| Bezier.EaseNeverStepsBack | src/animation/bezier.rs:49-59 | the easing is non-decreasing |
| Bezier.CurveExactly | src/animation/bezier.rs:19-27 | both coordinates are De Casteljau's construction on their own control values |
| Bezier.EaseIsOnTheCurve | src/animation/bezier.rs:49-59 | away from the ends the easing is the height of a curve point whose parameter is within 2^-32 of that above x |
| Bezier.ComputeTForX | src/animation/bezier.rs:29-47 | the loop computes the bisection |
| ScrollTracker.TicksTaken | src/input/scroll_tracker.rs:26-33 | truncating before dividing takes exactly the whole ticks of the total, clamped |
| ScrollTracker.RemainderIsBelowOneTick | src/input/scroll_tracker.rs:26-33 | less than one tick is left over |
| ScrollTracker.CallConservesExactlyWhen | src/input/scroll_tracker.rs:17-34 | ticks and remainder add up to the total exactly when it is below 128 ticks |
| ScrollTracker.ClampingLosesATick | src/input/scroll_tracker.rs:27-31 | of 128 ticks 127 are returned and nothing stays |
| ScrollTracker.DroppedExactlyWhen | src/input/scroll_tracker.rs:17-24 | what has built up is dropped exactly when the direction turns |
| ScrollTracker.ScrollConserves | src/input/scroll_tracker.rs:17-39 | over any steady run, ticks returned and remainder add up to the amounts |
| ScrollTracker.ScrollTracker.Accumulate | src/input/scroll_tracker.rs:17-34 | returns those ticks and keeps that remainder |

## Left out

- Rendering, shaders, screenshots, screencasts and DRM, GBM and EGL calls; only their outcome matters here.
- The internals of the layout: which window is under a point or focused is a parameter.
- The zoomed drawing of windows: which window is hit at which zoom is one parameter for input and drawing. The zoom of the layers below them is modelled.
- Skipping workspaces outside the output when drawing; no point of the output is in one.
- Cropping to whole physical pixels in the draw order, and insert hints, shadows and solid backgrounds, which take no input.
- Connectors, CRTCs, gamma, leases and dmabuf feedback of a GPU device; they do not influence which devices exist.
- DRM node types that change while a node exists; a node's type is fixed.
- The delay of vblanks by the vblank throttle; a delayed vblank is a later vblank event.
- The failure of clearing a screen when monitors are turned off; it is taken to succeed.
- A render without damage: what is displayed is taken to equal what was rendered.
- Key events sent to watching clients by the accessibility monitor, which do not influence grabs.
- Overflow of 32-bit coordinates and 64-bit durations, and rounding of floats.
- Scratch columns, safe mode, animation profiles, springs, IPC, D-Bus plumbing and configuration parsing; none of them changes the state modelled here.
- Input-method, tablet and touch grabs; the seat's grab state is a parameter of a popup grab.
- Compositor.Niri.DirectRender: the headless backend differs from winit only in always reporting a submission, which the events allow.
- FrameClock.RefreshInterval: requires a non-zero pixel clock, since the source divides by it.
- OutputPlacement.GlobalSpace.RepositionOutputs: positions of outputs that are not enabled and the notification of clients are not modelled.
