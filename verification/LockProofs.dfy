/**
 Invariants of the session-lock and redraw machine, and that every operation keeps them.
 */
module LockProofs {
  import opened Options
  import opened LockMachine

  // --- Invariants of every run ------------------------------------------------------------------

  ghost predicate LockSafe(s: State) {
    s.lock.Locked? ==> AllShowLock(s)
  }

  predicate IsPending(outputs: map<OutputId, Output>, o: OutputId) {
    o in outputs && outputs[o].redraw.Pending()
  }

  predicate OnSession(outputs: map<OutputId, Output>, o: OutputId) {
    o in outputs && outputs[o].lockRender == ShowsSession
  }

  ghost predicate LockingProgresses(s: State) {
    s.lock.Locking? ==>
      && (exists o :: IsPending(s.outputs, o))
      && (forall o :: OnSession(s.outputs, o) ==> IsPending(s.outputs, o))
  }

  // Every lock object is answered at most once, and the one being worked on not yet.
  ghost predicate OneAnswerEach(s: State) {
    && s.lockedSent !! s.finishedSent
    && s.lock.Undecided() !! (s.lockedSent + s.finishedSent)
    && (s.lock.Locked? ==> s.lock.lock in s.lockedSent)
  }

  ghost predicate DeadlineLive(s: State) {
    forall t :: (t in s.timers && s.timers[t].Deadline?) <==> (s.lock.WaitingForSurfaces? && s.lock.deadline == t)
  }

  ghost predicate TokensFresh(s: State) {
    forall t :: t in s.timers ==> t < s.nextToken
  }

  ghost predicate StoredTimersLive(s: State) {
    forall o :: o in s.outputs && s.outputs[o].redraw.Timer().Some? ==>
      var t := s.outputs[o].redraw.Timer().value;
      t in s.timers && s.timers[t] == EstimatedVBlank(o)
  }

  ghost predicate DirectBackendsNeverWait(s: State) {
    !s.backend.Tty? ==>
      && (forall o :: o in s.outputs ==> s.outputs[o].redraw.Idle? || s.outputs[o].redraw.Queued?)
      && (forall t :: t in s.timers ==> s.timers[t].Deadline?)
  }

  ghost predicate LockInv(s: State) {
    LockSafe(s) && LockingProgresses(s) && OneAnswerEach(s)
  }

  ghost predicate TimerInv(s: State) {
    DeadlineLive(s) && TokensFresh(s) && StoredTimersLive(s) && DirectBackendsNeverWait(s)
  }

  // --- Each operation keeps them ----------------------------------------------------------------

  lemma LockKeeps(s: State, l: LockId, holderAlive: bool)
    requires LockInv(s) && TimerInv(s)
    requires l !in s.lockedSent + s.finishedSent + s.lock.Undecided()
    ensures LockInv(Lock(s, l, holderAlive))
    ensures TimerInv(Lock(s, l, holderAlive))
  {
    LockKeepsAnswers(s, l, holderAlive);
    LockKeepsTimers(s, l, holderAlive);
  }

  lemma LockKeepsAnswers(s: State, l: LockId, holderAlive: bool)
    requires LockInv(s) && l !in s.lockedSent + s.finishedSent + s.lock.Undecided()
    ensures LockInv(Lock(s, l, holderAlive))
  {
  }

  lemma LockKeepsTimers(s: State, l: LockId, holderAlive: bool)
    requires TimerInv(s)
    ensures TimerInv(Lock(s, l, holderAlive))
  {
  }

  lemma ContinueToLockingKeeps(s: State)
    requires LockInv(s) && TokensFresh(s) && StoredTimersLive(s) && DirectBackendsNeverWait(s)
    requires forall t :: t in s.timers && s.timers[t].Deadline? ==> s.lock.WaitingForSurfaces? && s.lock.deadline == t
    requires s.lock.WaitingForSurfaces? && s.lock.deadline in s.timers ==> s.timers[s.lock.deadline].Deadline?
    ensures LockInv(ContinueToLocking(s))
    ensures TimerInv(ContinueToLocking(s))
  {
    ContinueToLockingKeepsLock(s);
    ContinueToLockingKeepsTimers(s);
  }

  lemma ContinueToLockingKeepsLock(s: State)
    requires LockInv(s)
    ensures LockInv(ContinueToLocking(s))
  {
    var s' := ContinueToLocking(s);
    if s.lock.WaitingForSurfaces? && s.outputs != map[] {
      var o :| o in s.outputs;
      assert IsPending(s'.outputs, o);
    }
  }

  lemma ContinueToLockingKeepsTimers(s: State)
    requires TokensFresh(s) && StoredTimersLive(s) && DirectBackendsNeverWait(s)
    requires forall t :: t in s.timers && s.timers[t].Deadline? ==> s.lock.WaitingForSurfaces? && s.lock.deadline == t
    requires s.lock.WaitingForSurfaces? && s.lock.deadline in s.timers ==> s.timers[s.lock.deadline].Deadline?
    ensures TimerInv(ContinueToLocking(s))
  {
    if s.lock.WaitingForSurfaces? {
      var s1 := s.(timers := s.timers - {s.lock.deadline});
      if s.outputs == map[] {
        assert TimerInv(Confirm(s1, s.lock.locker));
      } else {
        QueueRedrawsKeepsTimers(s1.(lock := Locking(s.lock.locker)), s.outputs.Keys);
      }
    }
  }

  lemma QueueRedrawsKeepsTimers(s: State, os: set<OutputId>)
    requires TimerInv(s)
    ensures TimerInv(QueueRedraws(s, os))
  {
  }

  lemma UnlockKeeps(s: State)
    requires OneAnswerEach(s) && TimerInv(s)
    ensures LockInv(Unlock(s))
    ensures TimerInv(Unlock(s))
  {
  }

  lemma NewLockSurfaceKeeps(s: State, o: OutputId, surface: SurfaceId, sameClient: bool)
    requires LockInv(s) && TimerInv(s)
    ensures LockInv(NewLockSurface(s, o, surface, sameClient))
    ensures TimerInv(NewLockSurface(s, o, surface, sameClient))
  {
    PendingKept(s, NewLockSurface(s, o, surface, sameClient));
  }

  lemma PendingKept(s: State, s': State)
    requires LockingProgresses(s) && s'.lock == s.lock
    requires forall o :: IsPending(s.outputs, o) ==> IsPending(s'.outputs, o)
    requires forall o :: OnSession(s'.outputs, o) ==> OnSession(s.outputs, o)
    ensures LockingProgresses(s')
  {
    if s.lock.Locking? {
      var o :| IsPending(s.outputs, o);
      assert IsPending(s'.outputs, o);
    }
  }

  lemma QueueRedrawsKeeps(s: State, os: set<OutputId>)
    requires LockInv(s) && TimerInv(s)
    ensures LockInv(QueueRedraws(s, os))
    ensures TimerInv(QueueRedraws(s, os))
  {
    PendingKept(s, QueueRedraws(s, os));
    QueueRedrawsKeepsTimers(s, os);
  }

  lemma AddOutputKeeps(s: State, o: OutputId, moved: set<OutputId>)
    requires LockInv(s) && TimerInv(s)
    ensures LockInv(AddOutput(s, o, moved))
    ensures TimerInv(AddOutput(s, o, moved))
  {
    if o !in s.outputs {
      var lockRender := if s.lock.IsLocked() then ShowsLock else ShowsSession;
      var s1 := s.(outputs := s.outputs[o := Output(Idle, lockRender, None, false, 0, Blank)]);
      if s.lock.Locking? {
        PendingKept(s, s1);
      }
      QueueRedrawsKeeps(s1, moved + {o});
    }
  }

  // In `Locking`, every output that `o` is not and that shows the session is about to be redrawn.
  ghost predicate OthersPending(s: State, o: OutputId) {
    s.lock.Locking? ==> forall p :: p != o && OnSession(s.outputs, p) ==> IsPending(s.outputs, p)
  }

  lemma CheckLockingRestores(s: State, o: OutputId)
    requires LockSafe(s) && OneAnswerEach(s) && TimerInv(s) && OthersPending(s, o)
    requires s.lock.Locking? ==> !OnSession(s.outputs, o)
    ensures LockInv(CheckLocking(s))
    ensures TimerInv(CheckLocking(s))
  {
    if s.lock.Locking? && !AllShowLock(s) {
      var p :| p in s.outputs && s.outputs[p].lockRender != ShowsLock;
      assert OnSession(s.outputs, p);
    }
  }

  lemma DropOutputKeeps(s: State, o: OutputId)
    requires LockInv(s) && TimerInv(s) && o in s.outputs
    ensures LockSafe(DropOutput(s, o)) && OneAnswerEach(DropOutput(s, o)) && OthersPending(DropOutput(s, o), o)
    ensures TimerInv(DropOutput(s, o))
  {
    var s' := DropOutput(s, o);
    assert forall p :: p != o && OnSession(s'.outputs, p) ==> OnSession(s.outputs, p);
    assert forall p :: p != o && IsPending(s.outputs, p) ==> IsPending(s'.outputs, p);
  }

  lemma RemoveOutputKeeps(s: State, o: OutputId, moved: set<OutputId>, uiClosed: bool, mapped: set<SurfaceId>)
    requires LockInv(s) && TimerInv(s)
    ensures LockInv(RemoveOutput(s, o, moved, uiClosed, mapped))
    ensures TimerInv(RemoveOutput(s, o, moved, uiClosed, mapped))
  {
    if o in s.outputs {
      QueueRedrawsKeeps(s, moved);
      var s0 := QueueRedraws(s, moved);
      DropOutputKeeps(s0, o);
      var s1 := DropOutput(s0, o);
      if s1.lock.Locking? {
        CheckLockingRestores(s1, o);
      } else {
        ContinueToLockingKeeps(s1);
      }
      var s2 := RecheckLock(s1, mapped);
      QueueRedrawsKeeps(s2, s2.outputs.Keys);
    }
  }

  lemma RenderKeeps(s: State, o: OutputId, outcome: RenderOutcome, animating: bool)
    requires TimerInv(s) && !s.crashed
    requires o in s.outputs && s.outputs[o].redraw.IsQueued() && CanEnd(s.backend, outcome)
    ensures TimerInv(RenderIfActive(s, o, outcome, animating))
    ensures !RenderIfActive(s, o, outcome, animating).crashed
  {
    if s.monitorsActive {
      var s1 := s.(outputs := s.outputs[o := s.outputs[o].(animating := animating)]);
      if s.backend.Tty? { TtyRenderKeeps(s1, o, outcome); } else { DirectRenderKeeps(s1, o); }
    }
  }

  lemma DirectRenderKeeps(s: State, o: OutputId)
    requires TimerInv(s) && !s.crashed && !s.backend.Tty? && o in s.outputs && s.outputs[o].redraw.IsQueued()
    ensures TimerInv(DirectRender(s, o)) && !DirectRender(s, o).crashed
  {
  }

  lemma TtyRenderKeeps(s: State, o: OutputId, outcome: RenderOutcome)
    requires TimerInv(s) && !s.crashed && s.backend.Tty? && o in s.outputs && s.outputs[o].redraw.IsQueued()
    ensures TimerInv(TtyRender(s, o, outcome)) && !TtyRender(s, o, outcome).crashed
  {
    var s1 := Present(s, o);
    match outcome
    case NotAttempted =>
    case Submitted => SubmitFrameKeeps(s1, o);
    case NoDamage => QueueEstimatedVBlankKeeps(s1, o);
    case Failed => QueueEstimatedVBlankKeeps(s, o);
  }

  lemma SubmitFrameKeeps(s: State, o: OutputId)
    requires TimerInv(s) && !s.crashed && s.backend.Tty? && o in s.outputs && s.outputs[o].redraw.IsQueued()
    ensures TimerInv(SubmitFrame(s, o)) && !SubmitFrame(s, o).crashed
  {
  }

  lemma QueueEstimatedVBlankKeeps(s: State, o: OutputId)
    requires TimerInv(s) && !s.crashed && s.backend.Tty? && o in s.outputs && s.outputs[o].redraw.IsQueued()
    ensures TimerInv(QueueEstimatedVBlank(s, o)) && !QueueEstimatedVBlank(s, o).crashed
  {
  }

  // Only one output changed, and the timers.
  ghost predicate Local(s: State, s': State, o: OutputId) {
    && o in s.outputs && o in s'.outputs && s'.outputs[o].lockRender == s.outputs[o].lockRender
    && s' == s.(outputs := s.outputs[o := s'.outputs[o]], timers := s'.timers, nextToken := s'.nextToken,
                crashed := s'.crashed)
  }

  lemma RenderIsLocal(s: State, o: OutputId, outcome: RenderOutcome, animating: bool)
    requires o in s.outputs
    ensures Local(s, RenderIfActive(s, o, outcome, animating), o)
  {
    if s.monitorsActive {
      var s1 := s.(outputs := s.outputs[o := s.outputs[o].(animating := animating)]);
      if s.backend.Tty? { TtyRenderIsLocal(s1, o, outcome); } else { DirectRenderIsLocal(s1, o); }
      LocalTwice(s, s1, Render(s1, o, outcome), o);
    } else {
      assert s.outputs[o := s.outputs[o]] == s.outputs;
    }
  }

  lemma DirectRenderIsLocal(s: State, o: OutputId)
    requires o in s.outputs
    ensures Local(s, DirectRender(s, o), o)
  {
  }

  lemma SubmitFrameIsLocal(s: State, o: OutputId)
    requires o in s.outputs
    ensures Local(s, SubmitFrame(s, o), o)
  {
    assert s.outputs[o := s.outputs[o]] == s.outputs;
  }

  lemma QueueEstimatedVBlankIsLocal(s: State, o: OutputId)
    requires o in s.outputs
    ensures Local(s, QueueEstimatedVBlank(s, o), o)
  {
    assert s.outputs[o := s.outputs[o]] == s.outputs;
  }

  lemma LocalTwice(s: State, s1: State, s2: State, o: OutputId)
    requires Local(s, s1, o) && Local(s1, s2, o)
    ensures Local(s, s2, o)
  {
    assert s.outputs[o := s1.outputs[o]][o := s2.outputs[o]] == s.outputs[o := s2.outputs[o]];
  }

  lemma TtyRenderIsLocal(s: State, o: OutputId, outcome: RenderOutcome)
    requires o in s.outputs
    ensures Local(s, TtyRender(s, o, outcome), o)
  {
    var s1 := Present(s, o);
    match outcome
    case NotAttempted => assert s.outputs[o := s.outputs[o]] == s.outputs;
    case Submitted =>
      SubmitFrameIsLocal(s1, o);
      LocalTwice(s, s1, SubmitFrame(s1, o), o);
    case NoDamage =>
      QueueEstimatedVBlankIsLocal(s1, o);
      LocalTwice(s, s1, QueueEstimatedVBlank(s1, o), o);
    case Failed => QueueEstimatedVBlankIsLocal(s, o);
  }

  lemma AfterRenderKeeps(s: State, o: OutputId, outcome: RenderOutcome)
    requires TimerInv(s) && o in s.outputs
    ensures TimerInv(AfterRender(s, o, outcome))
    ensures var s' := AfterRender(s, o, outcome);
            s' == s.(outputs := s.outputs[o := s'.outputs[o]])
  {
  }

  lemma RedrawKeeps(s: State, o: OutputId, outcome: RenderOutcome, animating: bool)
    requires LockInv(s) && TimerInv(s) && CanEnd(s.backend, outcome) && !s.crashed
    ensures LockInv(Redraw(s, o, outcome, animating))
    ensures TimerInv(Redraw(s, o, outcome, animating))
  {
    if o in s.outputs && s.outputs[o].redraw.IsQueued() {
      RenderKeeps(s, o, outcome, animating);
      RenderIsLocal(s, o, outcome, animating);
      var s1 := RenderIfActive(s, o, outcome, animating);
      AfterRenderKeeps(s1, o, outcome);
      var s2 := AfterRender(s1, o, outcome);
      assert OthersPending(s2, o) by {
        forall p | p != o && OnSession(s2.outputs, p) ensures IsPending(s2.outputs, p) || !s2.lock.Locking? {
          assert OnSession(s.outputs, p);
          assert IsPending(s.outputs, p) || !s.lock.Locking?;
        }
      }
      if s2.lock.Locking? && s2.outputs[o].lockRender == ShowsSession {
        UnlockKeeps(s2);
      } else {
        CheckLockingRestores(s2, o);
      }
    }
  }

  lemma OnVBlankKeeps(s: State, o: OutputId)
    requires LockInv(s) && TimerInv(s)
    requires s.backend.Tty?
    ensures LockInv(OnVBlank(s, o))
    ensures TimerInv(OnVBlank(s, o))
  {
    PendingKept(s, OnVBlank(s, o));
  }

  lemma FireTimerKeeps(s: State, t: Token)
    requires LockInv(s) && TimerInv(s)
    ensures LockInv(FireTimer(s, t))
    ensures TimerInv(FireTimer(s, t))
  {
    if t in s.timers {
      var s1 := s.(timers := s.timers - {t});
      PendingKept(s, s1);
      if s.timers[t].Deadline? {
        ContinueToLockingKeeps(s1);
      } else {
        EstimatedVBlankKeeps(s, s1, t, s.timers[t].output);
      }
    }
  }

  lemma EstimatedVBlankKeeps(s: State, s1: State, t: Token, o: OutputId)
    requires LockInv(s) && TimerInv(s)
    requires t in s.timers && s.timers[t] == EstimatedVBlank(o) && s1 == s.(timers := s.timers - {t})
    ensures LockInv(OnEstimatedVBlank(s1, o))
    ensures TimerInv(OnEstimatedVBlank(s1, o))
  {
    PendingKept(s, OnEstimatedVBlank(s1, o));
    EstimatedVBlankKeepsTimers(s, s1, t, o);
  }

  lemma EstimatedVBlankKeepsTimers(s: State, s1: State, t: Token, o: OutputId)
    requires TimerInv(s)
    requires t in s.timers && s.timers[t] == EstimatedVBlank(o) && s1 == s.(timers := s.timers - {t})
    ensures TimerInv(OnEstimatedVBlank(s1, o))
  {
    var s' := OnEstimatedVBlank(s1, o);
    assert s'.timers == s1.timers && s'.lock == s.lock;
    forall p | p in s'.outputs && s'.outputs[p].redraw.Timer().Some?
      ensures var u := s'.outputs[p].redraw.Timer().value; u in s'.timers && s'.timers[u] == EstimatedVBlank(p)
    {
      assert s'.outputs[p].redraw.Timer() == s.outputs[p].redraw.Timer();
    }
  }

  lemma DeactivateMonitorsKeeps(s: State)
    requires LockInv(s) && TimerInv(s)
    ensures LockInv(DeactivateMonitors(s))
    ensures TimerInv(DeactivateMonitors(s))
  {
    PendingKept(s, DeactivateMonitors(s));
  }

  lemma ResumeSessionKeeps(s: State)
    requires LockInv(s) && TimerInv(s)
    ensures LockInv(ResumeSession(s))
    ensures TimerInv(ResumeSession(s))
  {
    PendingKept(s, ResumeSession(s));
  }

  lemma StepKeeps(s: State, e: Event)
    requires LockInv(s) && TimerInv(s) && CanHappen(s, e)
    ensures LockInv(Step(s, e))
    ensures TimerInv(Step(s, e))
  {
    if s.crashed { return; }
    match e
    case LockRequest(l, alive) => LockKeeps(s, l, alive);
    case UnlockRequest => UnlockKeeps(s);
    case LockSurfaceCreated(o, surface, sameClient) => NewLockSurfaceKeeps(s, o, surface, sameClient);
    case LockSurfaceCommitted(o, mapped) =>
      ContinueToLockingKeeps(s);
      QueueRedrawsKeeps(s, {o});
    case TimerFires(t) => FireTimerKeeps(s, t);
    case OutputAdded(o, moved) => AddOutputKeeps(s, o, moved);
    case OutputRemoved(o, moved, uiClosed, mapped) => RemoveOutputKeeps(s, o, moved, uiClosed, mapped);
    case RedrawsQueued(os) => QueueRedrawsKeeps(s, os);
    case OutputRedrawn(o, outcome, animating) => RedrawKeeps(s, o, outcome, animating);
    case VBlank(o) => OnVBlankKeeps(s, o);
    case MonitorsOff => DeactivateMonitorsKeeps(s);
    case MonitorsOn => ResumeSessionKeeps(s);
    case SessionResumed => ResumeSessionKeeps(s);
  }

  lemma {:induction false} RunKeeps(s: State, es: seq<Event>)
    requires LockInv(s) && TimerInv(s) && IsRun(s, es)
    ensures LockInv(Exec(s, es))
    ensures TimerInv(Exec(s, es))
    decreases es
  {
    if es != [] {
      StepKeeps(s, es[0]);
      RunKeeps(Step(s, es[0]), es[1..]);
    }
  }

  // --- Steps that only queue redraws --------------------------------------------------------

  // The step leaves every output where it is, queues redraws at most, and may drop or add
  // lock deadlines only.
  ghost predicate OnlyQueues(s: State, s': State) {
    && s'.outputs.Keys == s.outputs.Keys && s'.crashed == s.crashed && s'.backend == s.backend
    && (s'.monitorsActive || !s.monitorsActive)
    && (forall o :: o in s.outputs ==>
          && (s'.outputs[o].redraw == s.outputs[o].redraw || s'.outputs[o].redraw == s.outputs[o].redraw.QueueRedraw())
          && s'.outputs[o].lockRender == s.outputs[o].lockRender
          && s'.outputs[o].callbackSequence == s.outputs[o].callbackSequence
          && s'.outputs[o].shown == s.outputs[o].shown)
    && (forall t :: t in s'.timers && s'.timers[t].EstimatedVBlank? ==> t in s.timers && s.timers[t] == s'.timers[t])
  }

  lemma ContinueToLockingOnlyQueues(s: State, mapped: set<SurfaceId>)
    ensures OnlyQueues(s, ContinueToLocking(s))
    ensures OnlyQueues(s, MaybeContinueToLocking(s, mapped))
    ensures OnlyQueues(s, RecheckLock(s, mapped))
  {
  }

  lemma SettleLockingOnlyQueues(s: State, o: OutputId)
    requires o in s.outputs
    ensures OnlyQueues(s, SettleLocking(s, o))
  {
  }

  predicate IsQuiet(s: State, e: Event) {
    match e
    case OutputAdded(_, _) => false
    case OutputRemoved(_, _, _, _) => false
    case OutputRedrawn(_, _, _) => false
    case VBlank(_) => false
    case MonitorsOff => false
    case TimerFires(t) => t in s.timers && s.timers[t].Deadline?
    case _ => true
  }

  lemma QuietStepOnlyQueues(s: State, e: Event)
    requires IsQuiet(s, e)
    ensures OnlyQueues(s, Step(s, e))
  {
    if s.crashed { return; }
    match e
    case LockRequest(l, alive) => LockOnlyQueues(s, l, alive);
    case UnlockRequest => UnlockOnlyQueues(s);
    case LockSurfaceCreated(o, surface, same) => NewLockSurfaceOnlyQueues(s, o, surface, same);
    case LockSurfaceCommitted(o, mapped) => ContinueToLockingOnlyQueues(s, mapped);
    case TimerFires(t) => ContinueToLockingOnlyQueues(s.(timers := s.timers - {t}), {});
    case RedrawsQueued(os) => QueueingOnlyQueues(s, os);
    case MonitorsOn => ActivatingOnlyQueues(s);
    case SessionResumed => ActivatingOnlyQueues(s);
  }

  lemma LockOnlyQueues(s: State, l: LockId, alive: bool)
    ensures OnlyQueues(s, Lock(s, l, alive))
  {
  }

  lemma UnlockOnlyQueues(s: State)
    ensures OnlyQueues(s, Unlock(s))
  {
  }

  lemma NewLockSurfaceOnlyQueues(s: State, o: OutputId, surface: SurfaceId, same: bool)
    ensures OnlyQueues(s, NewLockSurface(s, o, surface, same))
  {
  }

  lemma QueueingOnlyQueues(s: State, os: set<OutputId>)
    ensures OnlyQueues(s, QueueRedraws(s, os))
  {
  }

  lemma ActivatingOnlyQueues(s: State)
    ensures OnlyQueues(s, ActivateMonitors(s))
    ensures OnlyQueues(s, ResumeSession(s))
  {
  }

  // --- What the screens show ----------------------------------------------------------------

  predicate Exposed(out: Output) {
    out.lockRender == ShowsLock && out.shown == SessionFrame
  }

  ghost predicate NothingExposed(s: State) {
    && (forall o :: o in s.outputs ==> !Exposed(s.outputs[o]))
    && (!s.monitorsActive ==> s.backend.Tty? && forall o :: o in s.outputs ==> s.outputs[o].shown != SessionFrame)
  }

  lemma RedrawExposesNothing(s: State, o: OutputId, outcome: RenderOutcome, animating: bool)
    requires NothingExposed(s) && TimerInv(s) && CanEnd(s.backend, outcome) && !s.crashed
    ensures NothingExposed(Redraw(s, o, outcome, animating))
  {
    if o in s.outputs && s.outputs[o].redraw.IsQueued() {
      var s1 := RenderIfActive(s, o, outcome, animating);
      var s2 := AfterRender(s1, o, outcome);
      RenderKeeps(s, o, outcome, animating);
      assert NothingExposed(s2);
      SettleLockingOnlyQueues(s2, o);
    }
  }

  lemma RemovalExposesNothing(s: State, o: OutputId, moved: set<OutputId>, uiClosed: bool, mapped: set<SurfaceId>)
    requires NothingExposed(s)
    ensures NothingExposed(RemoveOutput(s, o, moved, uiClosed, mapped))
  {
    if o in s.outputs {
      var s1 := DropOutput(QueueRedraws(s, moved), o);
      assert NothingExposed(s1);
      ContinueToLockingOnlyQueues(s1, mapped);
    }
  }

  lemma NothingExposedStep(s: State, e: Event)
    requires NothingExposed(s) && TimerInv(s) && CanHappen(s, e)
    requires e.MonitorsOff? ==> s.backend.Tty?
    ensures NothingExposed(Step(s, e))
  {
    if s.crashed { return; }
    match e
    case OutputRedrawn(o, outcome, animating) => RedrawExposesNothing(s, o, outcome, animating);
    case OutputRemoved(o, moved, uiClosed, mapped) => RemovalExposesNothing(s, o, moved, uiClosed, mapped);
    case OutputAdded(o, moved) => assert NothingExposed(AddOutput(s, o, moved));
    case TimerFires(t) =>
      if IsQuiet(s, e) { QuietStepOnlyQueues(s, e); }
    case VBlank(o) =>
    case MonitorsOff =>
    case _ => QuietStepOnlyQueues(s, e);
  }

  // --- Timers -----------------------------------------------------------------------------------

  ghost predicate LiveTimersStored(s: State) {
    forall t :: t in s.timers && s.timers[t].EstimatedVBlank? ==>
      var o := s.timers[t].output;
      o in s.outputs && s.outputs[o].redraw.Timer() == Some(t)
  }

  lemma OnlyQueuesStoresTimers(s: State, s': State)
    requires LiveTimersStored(s) && OnlyQueues(s, s')
    ensures LiveTimersStored(s')
  {
  }

  lemma RenderStoresTimers(s: State, o: OutputId, outcome: RenderOutcome, animating: bool)
    requires TimerInv(s) && LiveTimersStored(s)
    requires o in s.outputs && s.outputs[o].redraw.IsQueued() && CanEnd(s.backend, outcome)
    ensures LiveTimersStored(RenderIfActive(s, o, outcome, animating))
  {
  }

  lemma RedrawStoresTimers(s: State, o: OutputId, outcome: RenderOutcome, animating: bool)
    requires TimerInv(s) && LiveTimersStored(s) && !s.crashed
    requires o in s.outputs && s.outputs[o].redraw.IsQueued() && CanEnd(s.backend, outcome)
    ensures LiveTimersStored(Redraw(s, o, outcome, animating))
    ensures !Redraw(s, o, outcome, animating).crashed
  {
    RenderKeeps(s, o, outcome, animating);
    RenderStoresTimers(s, o, outcome, animating);
    var s1 := RenderIfActive(s, o, outcome, animating);
    var s2 := AfterRender(s1, o, outcome);
    assert LiveTimersStored(s2);
    SettleLockingOnlyQueues(s2, o);
    OnlyQueuesStoresTimers(s2, SettleLocking(s2, o));
  }

  lemma RemovalStoresTimers(s: State, o: OutputId, moved: set<OutputId>, uiClosed: bool, mapped: set<SurfaceId>)
    requires TimerInv(s) && LiveTimersStored(s) && !s.crashed && o in s.outputs
    ensures LiveTimersStored(RemoveOutput(s, o, moved, uiClosed, mapped))
    ensures !RemoveOutput(s, o, moved, uiClosed, mapped).crashed
  {
    var s0 := QueueRedraws(s, moved);
    assert OnlyQueues(s, s0);
    OnlyQueuesStoresTimers(s, s0);
    var s1 := DropOutput(s0, o);
    assert LiveTimersStored(s1);
    ContinueToLockingOnlyQueues(s1, mapped);
    var s2 := RecheckLock(s1, mapped);
    OnlyQueuesStoresTimers(s1, s2);
    assert OnlyQueues(s2, QueueRedrawAll(s2));
    OnlyQueuesStoresTimers(s2, QueueRedrawAll(s2));
  }

  lemma LiveTimersStoredStep(s: State, e: Event)
    requires TimerInv(s) && LiveTimersStored(s) && !s.crashed && CanHappen(s, e) && !IsRogue(s, e)
    ensures LiveTimersStored(Step(s, e))
    ensures !Step(s, e).crashed
  {
    match e
    case OutputRedrawn(o, outcome, animating) => RedrawStoresTimers(s, o, outcome, animating);
    case OutputRemoved(o, moved, uiClosed, mapped) => RemovalStoresTimers(s, o, moved, uiClosed, mapped);
    case OutputAdded(o, moved) => assert LiveTimersStored(AddOutput(s, o, moved));
    case TimerFires(t) =>
      if IsQuiet(s, e) { QuietStepOnlyQueues(s, e); OnlyQueuesStoresTimers(s, Step(s, e)); }
    case VBlank(o) =>
    case MonitorsOff =>
    case _ => QuietStepOnlyQueues(s, e); OnlyQueuesStoresTimers(s, Step(s, e));
  }

  // --- Requests -----------------------------------------------------------------------------------

  lemma OnlyQueuesKeepsPending(s: State, s': State, o: OutputId)
    requires OnlyQueues(s, s') && IsPending(s.outputs, o)
    ensures IsPending(s'.outputs, o)
  {
  }

  lemma QueueingKeepsPending(s: State, os: set<OutputId>, o: OutputId)
    requires IsPending(s.outputs, o)
    ensures IsPending(QueueRedraws(s, os).outputs, o)
  {
  }

  lemma RedrawKeepsPending(s: State, p: OutputId, outcome: RenderOutcome, animating: bool, o: OutputId)
    requires IsPending(s.outputs, o) && p != o
    ensures IsPending(Redraw(s, p, outcome, animating).outputs, o)
  {
    if p in s.outputs && s.outputs[p].redraw.IsQueued() {
      RenderIsLocal(s, p, outcome, animating);
      var s1 := RenderIfActive(s, p, outcome, animating);
      var s2 := AfterRender(s1, p, outcome);
      assert IsPending(s2.outputs, o);
      SettleLockingOnlyQueues(s2, p);
    }
  }

  lemma RemovalKeepsPending(s: State, p: OutputId, moved: set<OutputId>, uiClosed: bool, mapped: set<SurfaceId>,
                            o: OutputId)
    requires IsPending(s.outputs, o) && p != o
    ensures IsPending(RemoveOutput(s, p, moved, uiClosed, mapped).outputs, o)
  {
    if p in s.outputs {
      QueueingKeepsPending(s, moved, o);
      var s1 := DropOutput(QueueRedraws(s, moved), p);
      ContinueToLockingOnlyQueues(s1, mapped);
      var s2 := RecheckLock(s1, mapped);
      OnlyQueuesKeepsPending(s1, s2, o);
      QueueingKeepsPending(s2, s2.outputs.Keys, o);
    }
  }

  lemma PendingStep(s: State, e: Event, o: OutputId)
    requires IsPending(s.outputs, o)
    requires !(e.OutputRedrawn? && e.output == o) && !(e.OutputRemoved? && e.output == o)
    ensures IsPending(Step(s, e).outputs, o)
  {
    if s.crashed { return; }
    match e
    case OutputRedrawn(p, outcome, animating) => RedrawKeepsPending(s, p, outcome, animating, o);
    case OutputRemoved(p, moved, uiClosed, mapped) => RemovalKeepsPending(s, p, moved, uiClosed, mapped, o);
    case OutputAdded(p, moved) => assert IsPending(AddOutput(s, p, moved).outputs, o);
    case TimerFires(t) =>
      if IsQuiet(s, e) { QuietStepOnlyQueues(s, e); }
    case VBlank(p) =>
    case MonitorsOff =>
    case _ => QuietStepOnlyQueues(s, e);
  }

  // --- The answers to lock requests -------------------------------------------------------------

  function Answers(s: State): set<LockId> {
    s.lockedSent + s.finishedSent + s.lock.Undecided()
  }

  function RequestedBy(e: Event): set<LockId> {
    if e.LockRequest? then {e.lock} else {}
  }

  // No lock object is forgotten, and `locked` goes only to the object that then holds the lock.
  ghost predicate AnswersMove(s: State, s': State, requested: set<LockId>) {
    && Answers(s') == Answers(s) + requested
    && (s'.lockedSent == s.lockedSent || (s'.lock.Locked? && s'.lockedSent == s.lockedSent + {s'.lock.lock}))
  }

  lemma LockPartsMoveAnswers(s: State, mapped: set<SurfaceId>)
    ensures AnswersMove(s, Unlock(s), {})
    ensures AnswersMove(s, CheckLocking(s), {})
    ensures AnswersMove(s, ContinueToLocking(s), {})
    ensures AnswersMove(s, MaybeContinueToLocking(s, mapped), {})
    ensures AnswersMove(s, RecheckLock(s, mapped), {})
  {
  }

  lemma RedrawMovesAnswers(s: State, o: OutputId, outcome: RenderOutcome, animating: bool)
    ensures AnswersMove(s, Redraw(s, o, outcome, animating), {})
  {
    if o in s.outputs && s.outputs[o].redraw.IsQueued() {
      RenderIsLocal(s, o, outcome, animating);
      var s1 := RenderIfActive(s, o, outcome, animating);
      LockPartsMoveAnswers(AfterRender(s1, o, outcome), {});
    }
  }

  lemma RemovalMovesAnswers(s: State, o: OutputId, moved: set<OutputId>, uiClosed: bool, mapped: set<SurfaceId>)
    ensures AnswersMove(s, RemoveOutput(s, o, moved, uiClosed, mapped), {})
  {
    if o in s.outputs {
      LockPartsMoveAnswers(DropOutput(QueueRedraws(s, moved), o), mapped);
    }
  }

  // The lock and the answers given so far.
  ghost predicate SameLock(s: State, s': State) {
    s'.lock == s.lock && s'.lockedSent == s.lockedSent && s'.finishedSent == s.finishedSent
  }

  // Events that have nothing to do with the lock.
  predicate AsideFromLock(e: Event) {
    || e.LockSurfaceCreated? || e.OutputAdded? || e.RedrawsQueued? || e.VBlank?
    || e.MonitorsOff? || e.MonitorsOn? || e.SessionResumed?
  }

  lemma AsideFromLockStep(s: State, e: Event)
    requires AsideFromLock(e)
    ensures SameLock(s, Step(s, e))
  {
  }

  lemma FrameTimerLeavesLock(s: State, t: Token)
    requires t in s.timers && s.timers[t].EstimatedVBlank?
    ensures SameLock(s, FireTimer(s, t))
  {
  }

  lemma SameLockMovesNoAnswers(s: State, s': State)
    requires SameLock(s, s')
    ensures AnswersMove(s, s', {})
  {
  }

  lemma TimerMovesAnswers(s: State, t: Token)
    ensures AnswersMove(s, FireTimer(s, t), {})
  {
    if t in s.timers {
      if s.timers[t].EstimatedVBlank? {
        FrameTimerLeavesLock(s, t);
        SameLockMovesNoAnswers(s, FireTimer(s, t));
      } else {
        var s1 := s.(timers := s.timers - {t});
        SameLockMovesNoAnswers(s, s1);
        LockPartsMoveAnswers(s1, {});
      }
    } else {
      SameLockMovesNoAnswers(s, s);
    }
  }

  lemma RequestMovesAnswers(s: State, l: LockId, holderAlive: bool)
    ensures AnswersMove(s, Lock(s, l, holderAlive), {l})
  {
  }

  lemma CommitMovesAnswers(s: State, o: OutputId, mapped: set<SurfaceId>)
    ensures AnswersMove(s, LockSurfaceCommit(s, o, mapped), {})
  {
    if s.lock.WaitingForSurfaces? {
      LockPartsMoveAnswers(s, mapped);
    } else {
      SameLockMovesNoAnswers(s, QueueRedraws(s, {o}));
    }
  }

  lemma AnswersMoveStep(s: State, e: Event)
    requires !s.crashed
    ensures AnswersMove(s, Step(s, e), RequestedBy(e))
  {
    if AsideFromLock(e) {
      AsideFromLockStep(s, e);
      SameLockMovesNoAnswers(s, Step(s, e));
    } else {
      match e
      case LockRequest(l, alive) => RequestMovesAnswers(s, l, alive);
      case UnlockRequest => LockPartsMoveAnswers(s, {});
      case LockSurfaceCommitted(o, mapped) => CommitMovesAnswers(s, o, mapped);
      case TimerFires(t) => TimerMovesAnswers(s, t);
      case OutputRemoved(o, moved, uiClosed, mapped) => RemovalMovesAnswers(s, o, moved, uiClosed, mapped);
      case OutputRedrawn(o, outcome, animating) => RedrawMovesAnswers(s, o, outcome, animating);
    }
  }
}
