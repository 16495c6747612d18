/**
 What the session lock and the redraw machine guarantee over whole runs.
 */
module LockTheorems {
  import opened Options
  import opened LockMachine
  import opened LockProofs

  // --- The lock ---------------------------------------------------------------------------------

  lemma {:induction false} LockedMeansEveryOutputShowsLock(backend: Backend, es: seq<Event>)
    requires IsRun(Init(backend), es)
    ensures var s := Exec(Init(backend), es);
            s.lock.Locked? ==> forall o :: o in s.outputs ==> s.outputs[o].lockRender == ShowsLock
  {
    RunKeeps(Init(backend), es);
  }

  // The `locked` event of ext_session_lock_v1 goes to one lock object, at a moment when every
  // output shows the lock.
  lemma {:induction false} LockedIsSentOnlyWhenShown(backend: Backend, es: seq<Event>, e: Event, l: LockId)
    requires IsRun(Init(backend), es) && CanHappen(Exec(Init(backend), es), e)
    requires l !in Exec(Init(backend), es).lockedSent && l in Step(Exec(Init(backend), es), e).lockedSent
    ensures var s := Step(Exec(Init(backend), es), e);
            s.lock == Locked(l) && AllShowLock(s)
  {
    var s := Exec(Init(backend), es);
    RunKeeps(Init(backend), es);
    StepKeeps(s, e);
    AnswersMoveStep(s, e);
  }

  predicate HasMappedSurface(s: State, o: OutputId, mapped: set<SurfaceId>) {
    o in s.outputs && s.outputs[o].lockSurface.Some? && s.outputs[o].lockSurface.value in mapped
  }

  lemma RemovalStartsLockingExactlyWhen(s: State, o: OutputId, moved: set<OutputId>, uiClosed: bool,
                                        mapped: set<SurfaceId>)
    requires s.lock.WaitingForSurfaces? && o in s.outputs
    ensures RemoveOutput(s, o, moved, uiClosed, mapped).lock.IsLocked() <==>
            forall p :: p in s.outputs && p != o ==> HasMappedSurface(s, p, mapped)
  {
    var s1 := DropOutput(QueueRedraws(s, moved), o);
    assert forall p :: p in s1.outputs ==> p in s.outputs && s1.outputs[p].lockSurface == s.outputs[p].lockSurface;
    assert forall p :: p in s.outputs && p != o ==> p in s1.outputs;
    if forall p :: p in s.outputs && p != o ==> HasMappedSurface(s, p, mapped) {
      assert forall p :: p in s1.outputs ==> HasMappedSurface(s, p, mapped);
    }
  }

  lemma CommitStartsLockingExactlyWhen(s: State, o: OutputId, mapped: set<SurfaceId>)
    requires s.lock.WaitingForSurfaces?
    ensures LockSurfaceCommit(s, o, mapped).lock.IsLocked() <==>
            forall p :: p in s.outputs ==> HasMappedSurface(s, p, mapped)
  {
  }

  lemma RedrawStartsNoLocking(s: State, o: OutputId, outcome: RenderOutcome, animating: bool)
    requires s.lock.WaitingForSurfaces? || s.lock.Locked?
    ensures Redraw(s, o, outcome, animating).lock == s.lock
  {
    if o in s.outputs && s.outputs[o].redraw.IsQueued() {
      RenderIsLocal(s, o, outcome, animating);
    }
  }

  lemma TimerStartsLockingExactlyWhen(s: State, t: Token)
    requires TimerInv(s) && s.lock.WaitingForSurfaces? && t in s.timers
    ensures FireTimer(s, t).lock.IsLocked() <==> t == s.lock.deadline
  {
    if s.timers[t].EstimatedVBlank? {
      FrameTimerLeavesLock(s, t);
    }
  }

  // The lock waits for its surfaces until the deadline, or until every output left has a mapped
  // one, and not longer.
  lemma LockingStartsExactlyWhen(s: State, e: Event)
    requires TimerInv(s) && s.lock.WaitingForSurfaces? && !s.crashed && CanHappen(s, e)
    ensures Step(s, e).lock.IsLocked() <==>
              || e == TimerFires(s.lock.deadline)
              || (e.LockSurfaceCommitted? && forall o :: o in s.outputs ==> HasMappedSurface(s, o, e.mapped))
              || (e.OutputRemoved? && forall o :: o in s.outputs && o != e.output ==> HasMappedSurface(s, o, e.mapped))
  {
    if AsideFromLock(e) {
      AsideFromLockStep(s, e);
    } else {
      match e
      case LockRequest(l, alive) => assert Lock(s, l, alive).lock == s.lock;
      case UnlockRequest => assert Unlock(s).lock == Unlocked;
      case LockSurfaceCommitted(o, mapped) => CommitStartsLockingExactlyWhen(s, o, mapped);
      case TimerFires(t) => TimerStartsLockingExactlyWhen(s, t);
      case OutputRemoved(o, moved, uiClosed, mapped) => RemovalStartsLockingExactlyWhen(s, o, moved, uiClosed, mapped);
      case OutputRedrawn(o, outcome, animating) => RedrawStartsNoLocking(s, o, outcome, animating);
    }
  }

  lemma LockedAcrossRemoval(s: State, o: OutputId, moved: set<OutputId>, uiClosed: bool, mapped: set<SurfaceId>)
    requires s.lock.Locked?
    ensures RemoveOutput(s, o, moved, uiClosed, mapped).lock == s.lock
  {
  }

  lemma LockedAcrossStep(s: State, e: Event)
    requires s.lock.Locked? && e != UnlockRequest
    ensures Step(s, e).lock.Locked?
  {
    if AsideFromLock(e) {
      AsideFromLockStep(s, e);
    } else {
      match e
      case LockRequest(l, alive) => assert Lock(s, l, alive).lock.Locked?;
      case LockSurfaceCommitted(o, mapped) => assert LockSurfaceCommit(s, o, mapped).lock == s.lock;
      case TimerFires(t) =>
        if t in s.timers && s.timers[t].EstimatedVBlank? { FrameTimerLeavesLock(s, t); }
      case OutputRemoved(o, moved, uiClosed, mapped) => LockedAcrossRemoval(s, o, moved, uiClosed, mapped);
      case OutputRedrawn(o, outcome, animating) => RedrawStartsNoLocking(s, o, outcome, animating);
    }
  }

  // Nothing but an unlock request ends a confirmed lock.
  lemma {:induction false} LockedUntilUnlocked(s: State, es: seq<Event>)
    requires s.lock.Locked? && UnlockRequest !in es
    ensures Exec(s, es).lock.Locked?
    decreases es
  {
    if es != [] {
      LockedAcrossStep(s, es[0]);
      LockedUntilUnlocked(Step(s, es[0]), es[1..]);
    }
  }

  // The lock objects that were handed to the compositor.
  function Requested(es: seq<Event>): set<LockId> {
    if es == [] then {} else RequestedBy(es[0]) + Requested(es[1..])
  }

  lemma {:induction false} AnswersConserved(s: State, es: seq<Event>)
    requires !Exec(s, es).crashed
    ensures Answers(Exec(s, es)) == Answers(s) + Requested(es)
    decreases es
  {
    if es != [] {
      CrashedIsFinal(s, es);
      AnswersMoveStep(s, es[0]);
      AnswersConserved(Step(s, es[0]), es[1..]);
    }
  }

  lemma {:induction false} CrashedIsFinal(s: State, es: seq<Event>)
    ensures s.crashed ==> Exec(s, es) == s
    decreases es
  {
    if es != [] && s.crashed {
      CrashedIsFinal(s, es[1..]);
    }
  }

  // After any run, each requested lock object has been sent `locked`, or `finished`, or is the
  // one the compositor is still working on; never two of these.
  lemma {:induction false} EveryLockAnsweredOnce(backend: Backend, es: seq<Event>, l: LockId)
    requires IsRun(Init(backend), es) && !Exec(Init(backend), es).crashed
    ensures var s := Exec(Init(backend), es);
            && (l in Requested(es) <==> l in s.lockedSent || l in s.finishedSent || l in s.lock.Undecided())
            && !(l in s.lockedSent && l in s.finishedSent)
            && !(l in s.lock.Undecided() && (l in s.lockedSent || l in s.finishedSent))
  {
    RunKeeps(Init(backend), es);
    AnswersConserved(Init(backend), es);
  }

  // --- The screens ------------------------------------------------------------------------------

  lemma {:induction false} RunExposesNothing(s: State, es: seq<Event>)
    requires NothingExposed(s) && LockInv(s) && TimerInv(s) && IsRun(s, es)
    requires s.backend.Tty? || MonitorsOff !in es
    ensures NothingExposed(Exec(s, es))
    decreases es
  {
    if es != [] {
      NothingExposedStep(s, es[0]);
      StepKeeps(s, es[0]);
      BackendStays(s, es[0]);
      RunExposesNothing(Step(s, es[0]), es[1..]);
    }
  }

  lemma BackendStays(s: State, e: Event)
    ensures Step(s, e).backend == s.backend
  {
    match e
    case OutputRedrawn(o, outcome, animating) =>
      if o in s.outputs { RenderIsLocal(s, o, outcome, animating); }
    case _ =>
  }

  // While the session is locked, no screen shows the session: on a TTY in every run, on the
  // other backends in every run that never turns the monitors off.
  lemma {:induction false} NoSessionFrameWhileLocked(backend: Backend, es: seq<Event>)
    requires IsRun(Init(backend), es)
    requires backend.Tty? || MonitorsOff !in es
    ensures var s := Exec(Init(backend), es);
            s.lock.Locked? ==> forall o :: o in s.outputs ==> s.outputs[o].shown != SessionFrame
  {
    RunKeeps(Init(backend), es);
    RunExposesNothing(Init(backend), es);
  }

  // The condition is needed: under winit the window keeps its last frame when the monitors are
  // turned off, and the lock is confirmed over it.
  lemma WinitLocksOverASessionFrame(o: OutputId, l: LockId)
    ensures var es := WinitRun(o, l);
            var s := Exec(Init(Winit), es);
            && IsRun(Init(Winit), es)
            && s.lock == Locked(l) && o in s.outputs && s.outputs[o].shown == SessionFrame
  {
    var s0 := Init(Winit);
    var s1 := s0.(outputs := map[o := Output(Queued, ShowsSession, None, false, 0, Blank)]);
    var s2 := s0.(outputs := map[o := Output(Idle, ShowsSession, None, false, 1, SessionFrame)]);
    var s3 := s2.(monitorsActive := false);
    assert Step(s0, OutputAdded(o, {})) == s1;
    assert Step(s1, OutputRedrawn(o, Submitted, false)) == s2;
    WinitLastSteps(s3, o, l);
    var es := WinitRun(o, l);
    assert es == [es[0]] + ([es[1]] + ([es[2]] + es[3..]));
    RunOne(s2, MonitorsOff, es[3..]);
    RunOne(s1, es[1], [es[2]] + es[3..]);
    RunOne(s0, es[0], [es[1]] + ([es[2]] + es[3..]));
  }

  function WinitRun(o: OutputId, l: LockId): seq<Event> {
    [OutputAdded(o, {}), OutputRedrawn(o, Submitted, false), MonitorsOff,
     LockRequest(l, false), TimerFires(0), OutputRedrawn(o, Submitted, false)]
  }

  lemma {:induction false} WinitLastSteps(s: State, o: OutputId, l: LockId)
    requires s == Init(Winit).(monitorsActive := false,
                               outputs := map[o := Output(Idle, ShowsSession, None, false, 1, SessionFrame)])
    ensures var es := WinitRun(o, l)[3..];
            var s' := Exec(s, es);
            IsRun(s, es) && s'.lock == Locked(l) && o in s'.outputs && s'.outputs[o].shown == SessionFrame
  {
    var e, e', e'' := LockRequest(l, false), TimerFires(0), OutputRedrawn(o, Submitted, false);
    var s1 := s.(lock := WaitingForSurfaces(l, 0), timers := map[0 := Deadline], nextToken := 1);
    assert o in s.outputs && s.outputs != map[];
    assert s.timers[0 := Deadline] == map[0 := Deadline];
    assert Step(s, e) == s1;
    assert s1.timers - {0} == map[];
    var s2 := s1.(lock := Locking(l), timers := map[],
                  outputs := map[o := Output(Queued, ShowsSession, None, false, 1, SessionFrame)]);
    assert Step(s1, e') == s2;
    assert WinitRun(o, l)[3..] == [e] + ([e'] + ([e''] + []));
    RunOne(s2, e'', []);
    RunOne(s1, e', [e''] + []);
    RunOne(s, e, [e'] + ([e''] + []));
  }

  lemma {:induction false} RunAppend(s: State, es: seq<Event>, e: Event)
    requires IsRun(s, es) && CanHappen(Exec(s, es), e)
    ensures IsRun(s, es + [e]) && Exec(s, es + [e]) == Step(Exec(s, es), e)
    decreases es
  {
    if es == [] {
      assert (es + [e])[1..] == [];
    } else {
      assert (es + [e])[1..] == es[1..] + [e];
      RunAppend(Step(s, es[0]), es[1..], e);
    }
  }

  lemma {:induction false} RunOne(s: State, e: Event, es: seq<Event>)
    requires CanHappen(s, e) && IsRun(Step(s, e), es)
    ensures IsRun(s, [e] + es) && Exec(s, [e] + es) == Exec(Step(s, e), es)
  {
    assert ([e] + es)[1..] == es;
  }

  // Exactly when a redraw marks an output as locked while it still shows the session.
  lemma RedrawExposesExactlyWhen(s: State, o: OutputId, outcome: RenderOutcome, animating: bool)
    requires TimerInv(s) && !s.crashed && CanHappen(s, OutputRedrawn(o, outcome, animating))
    requires !Exposed(s.outputs[o])
    ensures var s' := Redraw(s, o, outcome, animating);
            o in s'.outputs &&
            (Exposed(s'.outputs[o])
             <==> !s.monitorsActive && s.lock.IsLocked() && s.outputs[o].shown == SessionFrame)
  {
    RenderIsLocal(s, o, outcome, animating);
    RenderKeeps(s, o, outcome, animating);
    var s1 := RenderIfActive(s, o, outcome, animating);
    var s2 := AfterRender(s1, o, outcome);
    SettleLockingOnlyQueues(s2, o);
  }

  // --- Timers and crashes -------------------------------------------------------------------------

  lemma {:induction false} RunStoresTimers(s: State, es: seq<Event>)
    requires LockInv(s) && TimerInv(s) && LiveTimersStored(s) && !s.crashed
    requires IsRun(s, es) && WithoutRogues(s, es)
    ensures LiveTimersStored(Exec(s, es)) && !Exec(s, es).crashed
    decreases es
  {
    if es != [] {
      LiveTimersStoredStep(s, es[0]);
      StepKeeps(s, es[0]);
      RunStoresTimers(Step(s, es[0]), es[1..]);
    }
  }

  // Without rogue vblanks the estimated-vblank timers in the event loop are exactly the tokens in
  // the redraw states, a lock deadline is live exactly while lock surfaces are awaited, and no
  // `unreachable!()` is reached, on any backend.
  lemma {:induction false} TimerDiscipline(backend: Backend, es: seq<Event>)
    requires IsRun(Init(backend), es) && WithoutRogues(Init(backend), es)
    ensures var s := Exec(Init(backend), es);
            && !s.crashed
            && (forall t, o :: t in s.timers && s.timers[t] == EstimatedVBlank(o)
                               <==> o in s.outputs && s.outputs[o].redraw.Timer() == Some(t))
            && (forall t :: t in s.timers && s.timers[t] == Deadline
                            <==> s.lock.WaitingForSurfaces? && s.lock.deadline == t)
  {
    RunKeeps(Init(backend), es);
    RunStoresTimers(Init(backend), es);
  }

  // A vblank keeps this discipline exactly if its output holds no timer; otherwise the timer
  // that is left behind brings the compositor down when it fires.
  lemma {:induction false} VBlankKeepsTimersExactlyWhen(s: State, o: OutputId)
    requires TimerInv(s) && LiveTimersStored(s) && !s.crashed && s.backend.Tty? && o in s.outputs
    ensures LiveTimersStored(Step(s, VBlank(o))) <==> s.outputs[o].redraw.Timer().None?
    ensures s.outputs[o].redraw.Timer().Some? ==>
              var es := [VBlank(o), TimerFires(s.outputs[o].redraw.Timer().value)];
              IsRun(s, es) && Exec(s, es).crashed
  {
    var s1 := Step(s, VBlank(o));
    if s.outputs[o].redraw.Timer().Some? {
      var t := s.outputs[o].redraw.Timer().value;
      assert t in s1.timers && s1.outputs[o].redraw == Queued;
      assert Step(s1, TimerFires(t)).crashed;
      RunOne(s1, TimerFires(t), []);
      RunOne(s, VBlank(o), [TimerFires(t)]);
      assert [VBlank(o)] + [TimerFires(t)] == [VBlank(o), TimerFires(t)];
    }
  }

  // Such a vblank from the start: a redraw without damage leaves the output waiting for its timer.
  lemma RogueVBlankCrashes(o: OutputId)
    ensures var es := RogueRun(o);
            IsRun(Init(Tty), es) && Exec(Init(Tty), es).crashed
  {
    var s0 := Init(Tty);
    var s1 := s0.(outputs := map[o := Output(Queued, ShowsSession, None, false, 0, Blank)]);
    var s2 := s0.(outputs := map[o := Output(WaitingForEstimatedVBlank(0), ShowsSession, None, false, 0, SessionFrame)],
                  timers := map[0 := EstimatedVBlank(o)], nextToken := 1);
    assert Step(s0, OutputAdded(o, {})) == s1;
    assert Step(s1, OutputRedrawn(o, NoDamage, false)) == s2;
    RogueLastSteps(s2, o);
    var es := RogueRun(o);
    assert es == [es[0]] + ([es[1]] + es[2..]);
    RunOne(s1, es[1], es[2..]);
    RunOne(s0, es[0], [es[1]] + es[2..]);
  }

  function RogueRun(o: OutputId): seq<Event> {
    [OutputAdded(o, {}), OutputRedrawn(o, NoDamage, false), VBlank(o), TimerFires(0)]
  }

  lemma {:induction false} RogueLastSteps(s: State, o: OutputId)
    requires s.backend.Tty? && !s.crashed && o in s.outputs && s.outputs[o].redraw == WaitingForEstimatedVBlank(0)
    requires 0 in s.timers && s.timers[0] == EstimatedVBlank(o)
    ensures IsRun(s, RogueRun(o)[2..]) && Exec(s, RogueRun(o)[2..]).crashed
  {
    var s1 := Step(s, VBlank(o));
    assert s1.outputs[o].redraw == Queued && 0 in s1.timers;
    assert Step(s1, TimerFires(0)).crashed;
    assert RogueRun(o)[2..] == [VBlank(o)] + ([TimerFires(0)] + []);
    RunOne(s1, TimerFires(0), []);
    RunOne(s, VBlank(o), [TimerFires(0)] + []);
  }

  // --- Redraw requests ----------------------------------------------------------------------------

  ghost predicate TouchesOutput(e: Event, o: OutputId) {
    (e.OutputRedrawn? || e.OutputRemoved?) && e.output == o
  }

  // From a request on, across any events, rogue vblanks included, the output stays marked until
  // its redraw starts or it goes away.
  lemma {:induction false} NoRedrawRequestIsLost(s: State, es: seq<Event>, o: OutputId)
    requires o in s.outputs
    requires forall i :: 0 <= i < |es| ==> !TouchesOutput(es[i], o)
    ensures IsPending(Exec(QueueRedraws(s, {o}), es).outputs, o)
  {
    PendingAcross(QueueRedraws(s, {o}), es, o);
  }

  lemma {:induction false} PendingAcross(s: State, es: seq<Event>, o: OutputId)
    requires IsPending(s.outputs, o)
    requires forall i :: 0 <= i < |es| ==> !TouchesOutput(es[i], o)
    ensures IsPending(Exec(s, es).outputs, o)
    decreases es
  {
    if es != [] {
      assert !TouchesOutput(es[0], o);
      PendingStep(s, es[0], o);
      assert forall i :: 0 <= i < |es| - 1 ==> es[1..][i] == es[i + 1];
      PendingAcross(Step(s, es[0]), es[1..], o);
    }
  }

  // --- Locking ends -------------------------------------------------------------------------------

  function QueuedOutputs(s: State): set<OutputId> {
    set o | o in s.outputs && s.outputs[o].redraw.IsQueued()
  }

  // Redraws that may still happen before the redraw loop ends.
  function RedrawBudget(s: State): nat {
    |QueuedOutputs(s)| + if s.lock.Locking? then |s.outputs| else 0
  }

  lemma RedrawSpendsBudget(s: State, o: OutputId, outcome: RenderOutcome, animating: bool)
    requires TimerInv(s) && !s.crashed && CanHappen(s, OutputRedrawn(o, outcome, animating))
    ensures RedrawBudget(Redraw(s, o, outcome, animating)) < RedrawBudget(s)
  {
    var s2 := AfterRender(RenderIfActive(s, o, outcome, animating), o, outcome) by {
      RenderIsLocal(s, o, outcome, animating);
    }
    RenderTakesOneOff(s, o, outcome, animating);
    var s3 := SettleLocking(s2, o);
    SettleLockingOnlyQueues(s2, o);
    if s2.lock.Locking? && s2.outputs[o].lockRender == ShowsSession {
      SubsetSize(QueuedOutputs(s3), s.outputs.Keys);
    } else {
      assert QueuedOutputs(s3) == QueuedOutputs(s2);
    }
  }

  lemma RedrawSurvives(s: State, o: OutputId, outcome: RenderOutcome, animating: bool)
    requires TimerInv(s) && !s.crashed && CanHappen(s, OutputRedrawn(o, outcome, animating))
    ensures !Redraw(s, o, outcome, animating).crashed
  {
    RenderKeeps(s, o, outcome, animating);
    RenderIsLocal(s, o, outcome, animating);
    SettleLockingOnlyQueues(AfterRender(RenderIfActive(s, o, outcome, animating), o, outcome), o);
  }

  lemma RenderTakesOneOff(s: State, o: OutputId, outcome: RenderOutcome, animating: bool)
    requires TimerInv(s) && !s.crashed && CanHappen(s, OutputRedrawn(o, outcome, animating))
    ensures var s1 := RenderIfActive(s, o, outcome, animating);
            && o in s1.outputs && !s1.crashed && s1.lock == s.lock
            && var s2 := AfterRender(s1, o, outcome);
            && QueuedOutputs(s2) == QueuedOutputs(s) - {o}
            && s2.lock == s.lock && s2.outputs.Keys == s.outputs.Keys
  {
    RenderIsLocal(s, o, outcome, animating);
    RenderKeeps(s, o, outcome, animating);
    var s1 := RenderIfActive(s, o, outcome, animating);
    var s2 := AfterRender(s1, o, outcome);
    assert !s2.outputs[o].redraw.IsQueued();
    assert forall p :: p in s.outputs && p != o ==> s2.outputs[p].redraw == s.outputs[p].redraw;
  }

  lemma {:induction false} SubsetSize<T>(a: set<T>, b: set<T>)
    requires a <= b
    ensures |a| <= |b|
  {
    if a != {} {
      var x :| x in a;
      SubsetSize(a - {x}, b - {x});
    }
  }

  // However the backend answers and whichever queued output is taken next, the redraw loop stops,
  // although a failed lock re-queues every output.
  lemma {:induction false} RedrawLoopEnds(s: State, es: seq<Event>)
    requires LockInv(s) && TimerInv(s) && !s.crashed
    requires IsRun(s, es) && forall i :: 0 <= i < |es| ==> es[i].OutputRedrawn?
    ensures |es| <= RedrawBudget(s) <= 2 * |s.outputs|
    decreases es
  {
    SubsetSize(QueuedOutputs(s), s.outputs.Keys);
    if es != [] {
      var e := es[0];
      RedrawSpendsBudget(s, e.output, e.outcome, e.animating);
      RedrawSurvives(s, e.output, e.outcome, e.animating);
      StepKeeps(s, e);
      assert forall i :: 0 <= i < |es| - 1 ==> es[1..][i] == es[i + 1];
      RedrawLoopEnds(Step(s, e), es[1..]);
    }
  }

  // In `Locking`, every output that still shows the session is about to be redrawn, and at least
  // one output is, so the lock cannot get stuck half-way.
  lemma {:induction false} LockingNeverStalls(backend: Backend, es: seq<Event>)
    requires IsRun(Init(backend), es) && Exec(Init(backend), es).lock.Locking?
    ensures var s := Exec(Init(backend), es);
            && (exists o :: o in s.outputs && s.outputs[o].redraw.Pending())
            && (forall o :: o in s.outputs && s.outputs[o].lockRender == ShowsSession ==> s.outputs[o].redraw.Pending())
  {
    RunKeeps(Init(backend), es);
    var s := Exec(Init(backend), es);
    var o :| IsPending(s.outputs, o);
    assert forall p :: p in s.outputs && s.outputs[p].lockRender == ShowsSession ==> OnSession(s.outputs, p);
  }

  // Once the redraw loop has ended, only a page flip can keep the session in `Locking`; the winit
  // and headless backends are never left there.
  lemma LockingWaitsOnlyForVBlanks(s: State)
    requires LockInv(s) && TimerInv(s) && s.lock.Locking? && QueuedOutputs(s) == {}
    ensures s.backend.Tty?
    ensures exists o :: o in s.outputs && s.outputs[o].redraw == WaitingForVBlank(true)
    ensures forall o :: o in s.outputs && s.outputs[o].lockRender == ShowsSession ==>
              s.outputs[o].redraw == WaitingForVBlank(true)
  {
    var o :| IsPending(s.outputs, o);
    assert o !in QueuedOutputs(s);
    assert s.outputs[o].redraw == WaitingForVBlank(true);
    forall p | p in s.outputs && s.outputs[p].lockRender == ShowsSession
      ensures s.outputs[p].redraw == WaitingForVBlank(true)
    {
      assert OnSession(s.outputs, p);
      assert p !in QueuedOutputs(s);
    }
  }
}
