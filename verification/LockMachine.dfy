/**
 The session-lock and redraw state machine of the compositor, as values.

 `State` gathers what the lock protocol, the per-output redraw states and the event loop's
 timers keep between two callbacks. Each operation is a total function from state to state; a
 reached `unreachable!()`, `assert!` or failed `unwrap` sets `crashed`, after which nothing
 happens any more. The mutable form of the same operations is the class in module `Compositor`.
 */
module LockMachine {

  import opened Options

  type OutputId = nat
  type SurfaceId = nat
  type LockId = nat
  type Token = nat

  const SEQUENCE_MODULUS: nat := 0x1_0000_0000

  datatype Backend = Tty | Winit | Headless

  datatype RedrawState =
    | Idle
    | Queued
    | WaitingForVBlank(redrawNeeded: bool)
    | WaitingForEstimatedVBlank(token: Token)
    | WaitingForEstimatedVBlankAndQueued(token: Token)
  {
    function QueueRedraw(): RedrawState {
      match this
      case Idle => Queued
      case WaitingForEstimatedVBlank(t) => WaitingForEstimatedVBlankAndQueued(t)
      case Queued => this
      case WaitingForEstimatedVBlankAndQueued(_) => this
      case WaitingForVBlank(_) => WaitingForVBlank(true)
    }

    // What `redraw_queued_outputs` picks up.
    predicate IsQueued() {
      Queued? || WaitingForEstimatedVBlankAndQueued?
    }

    // A redraw of the output was requested and has not started.
    predicate Pending() {
      IsQueued() || this == WaitingForVBlank(true)
    }

    function Timer(): Option<Token> {
      if WaitingForEstimatedVBlank? || WaitingForEstimatedVBlankAndQueued? then Some(token) else None
    }

    // The state after a render that was skipped.
    function Skipped(): RedrawState {
      if Timer().Some? then WaitingForEstimatedVBlank(Timer().value) else Idle
    }
  }

  datatype LockState =
    | Unlocked
    | WaitingForSurfaces(locker: LockId, deadline: Token)
    | Locking(locker: LockId)
    | Locked(lock: LockId)
  {
    predicate IsLocked() {
      Locking? || Locked?
    }

    // The lock object that still waits for `locked` or `finished`.
    function Undecided(): set<LockId> {
      if WaitingForSurfaces? || Locking? then {locker} else {}
    }
  }

  datatype LockRenderState = ShowsSession | ShowsLock

  // What the output displays, from the last frame handed to the backend. No operation reads it.
  datatype Frame = Blank | SessionFrame | LockFrame

  datatype Timer = Deadline | EstimatedVBlank(output: OutputId)

  datatype Output = Output(
    redraw: RedrawState,
    lockRender: LockRenderState,
    lockSurface: Option<SurfaceId>,
    animating: bool,
    callbackSequence: nat,
    shown: Frame)

  datatype State = State(
    backend: Backend,
    lock: LockState,
    outputs: map<OutputId, Output>,
    monitorsActive: bool,
    timers: map<Token, Timer>,
    nextToken: Token,
    lockedSent: set<LockId>,
    finishedSent: set<LockId>,
    crashed: bool)

  // How the backend's part of a redraw ends. `Failed` is an error after rendering started, which
  // queues an estimated-vblank timer; `NotAttempted` returns before that. Both report a skip.
  datatype RenderOutcome = Submitted | NoDamage | Failed | NotAttempted

  function Init(backend: Backend): State {
    State(backend, Unlocked, map[], true, map[], 0, {}, {}, false)
  }

  function Crash(s: State): State {
    s.(crashed := true)
  }

  function QueueRedraws(s: State, os: set<OutputId>): State {
    s.(outputs := map o | o in s.outputs ::
         if o in os then s.outputs[o].(redraw := s.outputs[o].redraw.QueueRedraw()) else s.outputs[o])
  }

  function QueueRedrawAll(s: State): State {
    QueueRedraws(s, s.outputs.Keys)
  }

  predicate AllShowLock(s: State) {
    forall o :: o in s.outputs ==> s.outputs[o].lockRender == ShowsLock
  }

  // --- Session lock ---------------------------------------------------------------------------

  // `confirmation.lock()`: the client is told that the session is locked.
  function Confirm(s: State, l: LockId): State {
    s.(lock := Locked(l), lockedSent := s.lockedSent + {l})
  }

  function Lock(s: State, l: LockId, holderAlive: bool): State {
    match s.lock
    case WaitingForSurfaces(_, _) => s.(finishedSent := s.finishedSent + {l})
    case Locking(_) => s.(finishedSent := s.finishedSent + {l})
    case Locked(_) => if holderAlive then s.(finishedSent := s.finishedSent + {l}) else Confirm(s, l)
    case Unlocked =>
      if s.outputs == map[] then Confirm(s, l)
      else s.(lock := WaitingForSurfaces(l, s.nextToken),
              timers := s.timers[s.nextToken := Deadline],
              nextToken := s.nextToken + 1)
  }

  function ContinueToLocking(s: State): State {
    match s.lock
    case WaitingForSurfaces(l, t) =>
      var s1 := s.(timers := s.timers - {t});
      if s.outputs == map[] then Confirm(s1, l) else QueueRedrawAll(s1.(lock := Locking(l)))
    case _ => s
  }

  predicate LockSurfacesReady(s: State, mapped: set<SurfaceId>) {
    forall o :: o in s.outputs ==> s.outputs[o].lockSurface.Some? && s.outputs[o].lockSurface.value in mapped
  }

  function MaybeContinueToLocking(s: State, mapped: set<SurfaceId>): State {
    if s.lock.WaitingForSurfaces? && LockSurfacesReady(s, mapped) then ContinueToLocking(s) else s
  }

  function Unlock(s: State): State {
    var timers := if s.lock.WaitingForSurfaces? then s.timers - {s.lock.deadline} else s.timers;
    var s1 := s.(lock := Unlocked, timers := timers,
                 finishedSent := s.finishedSent + s.lock.Undecided(),
                 outputs := map o | o in s.outputs :: s.outputs[o].(lockSurface := None));
    QueueRedrawAll(s1)
  }

  function NewLockSurface(s: State, o: OutputId, surface: SurfaceId, sameClient: bool): State {
    if s.lock.Unlocked? || !sameClient || o !in s.outputs then s
    else s.(outputs := s.outputs[o := s.outputs[o].(lockSurface := Some(surface))])
  }

  function LockSurfaceCommit(s: State, o: OutputId, mapped: set<SurfaceId>): State {
    if s.lock.WaitingForSurfaces? then MaybeContinueToLocking(s, mapped) else QueueRedraws(s, {o})
  }

  // --- Outputs --------------------------------------------------------------------------------

  // `moved` are the outputs that repositioning gave a new place.
  function AddOutput(s: State, o: OutputId, moved: set<OutputId>): State {
    if o in s.outputs then Crash(s) else
    var lockRender := if s.lock.IsLocked() then ShowsLock else ShowsSession;
    var s1 := s.(outputs := s.outputs[o := Output(Idle, lockRender, None, false, 0, Blank)]);
    QueueRedraws(s1, moved + {o})
  }

  function DropOutput(s: State, o: OutputId): State
    requires o in s.outputs
  {
    var timer := s.outputs[o].redraw.Timer();
    s.(outputs := s.outputs - {o}, timers := if timer.Some? then s.timers - {timer.value} else s.timers)
  }

  // If locking, confirm once every output shows the lock.
  function CheckLocking(s: State): State {
    if s.lock.Locking? && AllShowLock(s) then Confirm(s, s.lock.locker) else s
  }

  // With one output less, the lock may have nothing left to wait for.
  function RecheckLock(s: State, mapped: set<SurfaceId>): State {
    if s.lock.Locking? then CheckLocking(s) else MaybeContinueToLocking(s, mapped)
  }

  // `uiClosed` says that the screenshot UI was open and got closed.
  function RemoveOutput(s: State, o: OutputId, moved: set<OutputId>, uiClosed: bool, mapped: set<SurfaceId>): State {
    if o !in s.outputs then Crash(s) else
    var s1 := DropOutput(QueueRedraws(s, moved), o);
    var s2 := RecheckLock(s1, mapped);
    if uiClosed then QueueRedrawAll(s2) else s2
  }

  // --- Redrawing ------------------------------------------------------------------------------

  function Bump(sequence: nat): nat {
    (sequence + 1) % SEQUENCE_MODULUS
  }

  function CurrentFrame(s: State): Frame {
    if s.lock.IsLocked() then LockFrame else SessionFrame
  }

  // The output now displays the frame that was just rendered.
  function Present(s: State, o: OutputId): State
    requires o in s.outputs
  {
    s.(outputs := s.outputs[o := s.outputs[o].(shown := CurrentFrame(s))])
  }

  function QueueEstimatedVBlank(s: State, o: OutputId): State
    requires o in s.outputs
  {
    var out := s.outputs[o];
    match out.redraw
    case Idle => Crash(s)
    case WaitingForVBlank(_) => Crash(s)
    case Queued =>
      s.(outputs := s.outputs[o := out.(redraw := WaitingForEstimatedVBlank(s.nextToken))],
         timers := s.timers[s.nextToken := EstimatedVBlank(o)],
         nextToken := s.nextToken + 1)
    case WaitingForEstimatedVBlank(t) => s
    case WaitingForEstimatedVBlankAndQueued(t) =>
      s.(outputs := s.outputs[o := out.(redraw := WaitingForEstimatedVBlank(t))])
  }

  function SubmitFrame(s: State, o: OutputId): State
    requires o in s.outputs
  {
    var out := s.outputs[o].(redraw := WaitingForVBlank(false),
                             callbackSequence := Bump(s.outputs[o].callbackSequence));
    match s.outputs[o].redraw
    case Queued => s.(outputs := s.outputs[o := out])
    case WaitingForEstimatedVBlankAndQueued(t) => s.(outputs := s.outputs[o := out], timers := s.timers - {t})
    case _ => Crash(s)
  }

  // Without damage, what is displayed already is the frame that was rendered.
  function TtyRender(s: State, o: OutputId, outcome: RenderOutcome): State
    requires o in s.outputs
  {
    match outcome
    case NotAttempted => s
    case Submitted => SubmitFrame(Present(s, o), o)
    case NoDamage => QueueEstimatedVBlank(Present(s, o), o)
    case Failed => QueueEstimatedVBlank(s, o)
  }

  // The winit and headless backends present at once.
  function DirectRender(s: State, o: OutputId): State
    requires o in s.outputs
  {
    var s1 := Present(s, o);
    var out := s1.outputs[o];
    if !out.redraw.Queued? then Crash(s1)
    else s1.(outputs := s1.outputs[o := out.(redraw := Idle, callbackSequence := Bump(out.callbackSequence))])
  }

  function Render(s: State, o: OutputId, outcome: RenderOutcome): State
    requires o in s.outputs
  {
    if s.backend.Tty? then TtyRender(s, o, outcome) else DirectRender(s, o)
  }

  predicate IsSkip(s: State, outcome: RenderOutcome) {
    !s.monitorsActive || outcome.Failed? || outcome.NotAttempted?
  }

  // The part of a redraw that follows rendering, up to the check on the lock.
  function AfterRender(s: State, o: OutputId, outcome: RenderOutcome): State
    requires o in s.outputs
  {
    var out := s.outputs[o];
    var redraw := if IsSkip(s, outcome) then out.redraw.Skipped() else out.redraw;
    var lockRender :=
      if IsSkip(s, outcome) && s.monitorsActive then out.lockRender
      else if s.lock.IsLocked() then ShowsLock else ShowsSession;
    s.(outputs := s.outputs[o := out.(redraw := redraw, lockRender := lockRender)])
  }

  // A lock frame that could not be drawn fails the locking.
  function SettleLocking(s: State, o: OutputId): State
    requires o in s.outputs
  {
    if s.lock.Locking? && s.outputs[o].lockRender == ShowsSession then Unlock(s) else CheckLocking(s)
  }

  // Nothing is rendered while the monitors are off.
  function RenderIfActive(s: State, o: OutputId, outcome: RenderOutcome, animating: bool): State
    requires o in s.outputs
  {
    if s.monitorsActive
    then Render(s.(outputs := s.outputs[o := s.outputs[o].(animating := animating)]), o, outcome)
    else s
  }

  function Redraw(s: State, o: OutputId, outcome: RenderOutcome, animating: bool): State {
    if o !in s.outputs || !s.outputs[o].redraw.IsQueued() then Crash(s) else
    var s1 := RenderIfActive(s, o, outcome, animating);
    if s1.crashed then s1 else SettleLocking(AfterRender(s1, o, outcome), o)
  }

  function OnVBlank(s: State, o: OutputId): State {
    if o !in s.outputs then s else
    var out := s.outputs[o];
    var needed := if out.redraw.WaitingForVBlank? then out.redraw.redrawNeeded else true;
    s.(outputs := s.outputs[o := out.(redraw := if needed || out.animating then Queued else Idle)])
  }

  function OnEstimatedVBlank(s: State, o: OutputId): State {
    if o !in s.outputs then s else
    var out := s.outputs[o].(callbackSequence := Bump(s.outputs[o].callbackSequence));
    match out.redraw
    case WaitingForEstimatedVBlank(_) =>
      s.(outputs := s.outputs[o := out.(redraw := if out.animating then Queued else Idle)])
    case WaitingForEstimatedVBlankAndQueued(_) =>
      s.(outputs := s.outputs[o := out.(redraw := Queued)])
    case _ => Crash(s)
  }

  // A timer callback runs once and its source is dropped.
  function FireTimer(s: State, t: Token): State {
    if t !in s.timers then s else
    var s1 := s.(timers := s.timers - {t});
    match s.timers[t]
    case Deadline => ContinueToLocking(s1)
    case EstimatedVBlank(o) => OnEstimatedVBlank(s1, o)
  }

  function DeactivateMonitors(s: State): State {
    if !s.monitorsActive then s
    // Only the TTY backend clears what the monitors show.
    else if s.backend.Tty? then
      s.(monitorsActive := false, outputs := map o | o in s.outputs :: s.outputs[o].(shown := Blank))
    else s.(monitorsActive := false)
  }

  function ActivateMonitors(s: State): State {
    if s.monitorsActive then s else QueueRedrawAll(s.(monitorsActive := true))
  }

  function ResumeSession(s: State): State {
    QueueRedrawAll(s.(monitorsActive := true))
  }

  // --- Events and runs ------------------------------------------------------------------------

  datatype Event =
    | LockRequest(lock: LockId, holderAlive: bool)
    | UnlockRequest
    | LockSurfaceCreated(output: OutputId, surface: SurfaceId, sameClient: bool)
    | LockSurfaceCommitted(output: OutputId, mapped: set<SurfaceId>)
    | TimerFires(token: Token)
    | OutputAdded(output: OutputId, moved: set<OutputId>)
    | OutputRemoved(output: OutputId, moved: set<OutputId>, uiClosed: bool, mapped: set<SurfaceId>)
    | RedrawsQueued(these: set<OutputId>)
    | OutputRedrawn(output: OutputId, outcome: RenderOutcome, animating: bool)
    | VBlank(output: OutputId)
    | MonitorsOff
    | MonitorsOn
    | SessionResumed

  function Step(s: State, e: Event): State {
    if s.crashed then s else
    match e
    case LockRequest(l, alive) => Lock(s, l, alive)
    case UnlockRequest => Unlock(s)
    case LockSurfaceCreated(o, surface, sameClient) => NewLockSurface(s, o, surface, sameClient)
    case LockSurfaceCommitted(o, mapped) => LockSurfaceCommit(s, o, mapped)
    case TimerFires(t) => FireTimer(s, t)
    case OutputAdded(o, moved) => AddOutput(s, o, moved)
    case OutputRemoved(o, moved, uiClosed, mapped) => RemoveOutput(s, o, moved, uiClosed, mapped)
    case RedrawsQueued(os) => QueueRedraws(s, os)
    case OutputRedrawn(o, outcome, animating) => Redraw(s, o, outcome, animating)
    case VBlank(o) => OnVBlank(s, o)
    case MonitorsOff => DeactivateMonitors(s)
    case MonitorsOn => ActivateMonitors(s)
    case SessionResumed => ResumeSession(s)
  }

  // What each backend's `render` can report.
  predicate CanEnd(backend: Backend, outcome: RenderOutcome) {
    match backend
    case Tty => true
    case Winit => outcome.Submitted? || outcome.NoDamage?
    case Headless => outcome.Submitted?
  }

  // What the event sources can deliver in a state: each lock object is new, timers fire while
  // they are live, outputs are tracked once, and `redraw` is called by the redraw loop.
  predicate CanHappen(s: State, e: Event) {
    match e
    case LockRequest(l, _) => l !in s.lockedSent + s.finishedSent + s.lock.Undecided()
    case LockSurfaceCommitted(o, _) => o in s.outputs && s.outputs[o].lockSurface.Some?
    case TimerFires(t) => t in s.timers
    case OutputAdded(o, _) => o !in s.outputs
    case OutputRemoved(o, _, _, _) => o in s.outputs
    case OutputRedrawn(o, outcome, _) =>
      o in s.outputs && s.outputs[o].redraw.IsQueued() && CanEnd(s.backend, outcome)
    case VBlank(_) => s.backend.Tty?
    case SessionResumed => s.backend.Tty?
    case _ => true
  }

  // A vblank that nobody waits for, on an output that waits for its estimated-vblank timer.
  predicate IsRogue(s: State, e: Event) {
    e.VBlank? && e.output in s.outputs && s.outputs[e.output].redraw.Timer().Some?
  }

  function Exec(s: State, es: seq<Event>): State
    decreases es
  {
    if es == [] then s else Exec(Step(s, es[0]), es[1..])
  }

  // Every event of the run can happen when it happens.
  predicate IsRun(s: State, es: seq<Event>)
    decreases es
  {
    es == [] || (CanHappen(s, es[0]) && IsRun(Step(s, es[0]), es[1..]))
  }

  predicate WithoutRogues(s: State, es: seq<Event>)
    decreases es
  {
    es == [] || (!IsRogue(s, es[0]) && WithoutRogues(Step(s, es[0]), es[1..]))
  }
}
