/**
 What a state remembers of the run that led to it: which outputs are tracked, whether the monitors are
 on, which lock surface an output has, and whether its animations go on.
 */
module OutputHistory {
  import opened Options
  import opened LockMachine
  import opened LockProofs
  import opened LockTheorems

  // --- The outputs and the monitors -------------------------------------------------------------

  function Tracked(outputs: set<OutputId>, es: seq<Event>): set<OutputId>
    decreases es
  {
    if es == [] then outputs
    else
      var e := es[0];
      Tracked(if e.OutputAdded? then outputs + {e.output}
              else if e.OutputRemoved? then outputs - {e.output} else outputs, es[1..])
  }

  function SwitchedOn(on: bool, es: seq<Event>): bool
    decreases es
  {
    if es == [] then on
    else
      var e := es[0];
      SwitchedOn(if e.MonitorsOff? then false else if e.MonitorsOn? || e.SessionResumed? then true else on, es[1..])
  }

  lemma RemovalTracks(s: State, o: OutputId, moved: set<OutputId>, uiClosed: bool, mapped: set<SurfaceId>)
    requires o in s.outputs
    ensures var s' := RemoveOutput(s, o, moved, uiClosed, mapped);
            s'.outputs.Keys == s.outputs.Keys - {o} && s'.monitorsActive == s.monitorsActive
  {
    ContinueToLockingOnlyQueues(DropOutput(QueueRedraws(s, moved), o), mapped);
  }

  lemma RedrawTracks(s: State, o: OutputId, outcome: RenderOutcome, animating: bool)
    ensures var s' := Redraw(s, o, outcome, animating);
            s'.outputs.Keys == s.outputs.Keys && s'.monitorsActive == s.monitorsActive
  {
    if o in s.outputs && s.outputs[o].redraw.IsQueued() {
      RenderIsLocal(s, o, outcome, animating);
      var s1 := RenderIfActive(s, o, outcome, animating);
      if !s1.crashed { SettleLockingOnlyQueues(AfterRender(s1, o, outcome), o); }
    }
  }

  lemma TracksStep(s: State, e: Event)
    requires !s.crashed && CanHappen(s, e)
    ensures Step(s, e).outputs.Keys == Tracked(s.outputs.Keys, [e])
    ensures Step(s, e).monitorsActive == SwitchedOn(s.monitorsActive, [e])
  {
    assert [e][1..] == [];
    match e
    case OutputRemoved(o, moved, uiClosed, mapped) => RemovalTracks(s, o, moved, uiClosed, mapped);
    case OutputRedrawn(o, outcome, animating) => RedrawTracks(s, o, outcome, animating);
    case _ =>
  }

  // The tracked outputs are those added and not removed, and the monitors are as last switched.
  lemma {:induction false} HistoryOfOutputs(s: State, es: seq<Event>)
    requires IsRun(s, es) && !Exec(s, es).crashed
    ensures Exec(s, es).outputs.Keys == Tracked(s.outputs.Keys, es)
    ensures Exec(s, es).monitorsActive == SwitchedOn(s.monitorsActive, es)
    decreases es
  {
    if es != [] {
      CrashedIsFinal(s, es);
      TracksStep(s, es[0]);
      assert [es[0]][1..] == [];
      HistoryOfOutputs(Step(s, es[0]), es[1..]);
    }
  }

  // --- One output -------------------------------------------------------------------------------

  predicate Concerns(e: Event, o: OutputId) {
    (e.OutputAdded? || e.OutputRemoved?) && e.output == o
  }

  // A lock surface for `o` from the client that locks.
  predicate Brings(s: State, e: Event, o: OutputId) {
    e.LockSurfaceCreated? && e.output == o && e.sameClient && !s.lock.Unlocked?
  }

  // The lock is given up, by request or because a lock frame could not be drawn.
  predicate Releases(s: State, s': State, e: Event) {
    e == UnlockRequest || (s'.lock.Unlocked? && !s.lock.Unlocked?)
  }

  // A redraw of `o` that reaches the display, or finds it off.
  predicate Draws(s: State, e: Event, o: OutputId) {
    e.OutputRedrawn? && e.output == o && (!s.monitorsActive || e.outcome.Submitted? || e.outcome.NoDamage?)
  }

  function RenderStateOf(s: State): LockRenderState {
    if s.lock.IsLocked() then ShowsLock else ShowsSession
  }

  // The lock surface of an output changes only when its locker brings one, and goes when the lock
  // does; its animations are those of its last redraw with the monitors on; and its render state says
  // whether the session was locked when it was last drawn.
  ghost predicate Remembers(s: State, s': State, e: Event, o: OutputId) {
    && o in s.outputs && o in s'.outputs
    && s'.outputs[o].lockSurface ==
       (if Brings(s, e, o) then Some(e.surface)
        else if Releases(s, s', e) then None else s.outputs[o].lockSurface)
    && s'.outputs[o].animating ==
       (if e.OutputRedrawn? && e.output == o && s.monitorsActive then e.animating else s.outputs[o].animating)
    && s'.outputs[o].lockRender == (if Draws(s, e, o) then RenderStateOf(s) else s.outputs[o].lockRender)
  }

  // Only the lock's own parts differ.
  ghost predicate SameMemory(s: State, s': State, o: OutputId) {
    && o in s.outputs && o in s'.outputs
    && s'.outputs[o].lockSurface == s.outputs[o].lockSurface && s'.outputs[o].animating == s.outputs[o].animating
    && s'.outputs[o].lockRender == s.outputs[o].lockRender
  }

  lemma LockPartsRemember(s: State, mapped: set<SurfaceId>, o: OutputId)
    requires o in s.outputs
    ensures SameMemory(s, ContinueToLocking(s), o) && SameMemory(s, MaybeContinueToLocking(s, mapped), o)
    ensures SameMemory(s, CheckLocking(s), o) && SameMemory(s, RecheckLock(s, mapped), o)
    ensures !s.lock.Unlocked? ==>
              !ContinueToLocking(s).lock.Unlocked? && !RecheckLock(s, mapped).lock.Unlocked?
              && !MaybeContinueToLocking(s, mapped).lock.Unlocked?
  {
  }

  lemma RemovalRemembers(s: State, p: OutputId, moved: set<OutputId>, uiClosed: bool, mapped: set<SurfaceId>,
                         o: OutputId)
    requires o in s.outputs && p in s.outputs && o != p
    ensures var s' := RemoveOutput(s, p, moved, uiClosed, mapped);
            SameMemory(s, s', o) && (!s.lock.Unlocked? ==> !s'.lock.Unlocked?)
  {
    var s1 := DropOutput(QueueRedraws(s, moved), p);
    assert SameMemory(s, s1, o) && s1.lock == s.lock;
    LockPartsRemember(s1, mapped, o);
  }

  lemma RenderRemembers(s: State, p: OutputId, outcome: RenderOutcome, animating: bool, o: OutputId)
    requires TimerInv(s) && !s.crashed && CanHappen(s, OutputRedrawn(p, outcome, animating)) && o in s.outputs
    ensures var s1 := RenderIfActive(s, p, outcome, animating);
            && p in s1.outputs && o in s1.outputs && s1.lock == s.lock && !s1.crashed
            && var s2 := AfterRender(s1, p, outcome);
            && s2.outputs[o].lockSurface == s.outputs[o].lockSurface && s2.lock == s.lock
            && s2.outputs[o].animating == (if p == o && s.monitorsActive then animating else s.outputs[o].animating)
            && s2.outputs[o].lockRender ==
               (if Draws(s, OutputRedrawn(p, outcome, animating), o) then RenderStateOf(s) else s.outputs[o].lockRender)
  {
    RenderIsLocal(s, p, outcome, animating);
    RenderKeeps(s, p, outcome, animating);
  }

  lemma RedrawRemembers(s: State, p: OutputId, outcome: RenderOutcome, animating: bool, o: OutputId)
    requires TimerInv(s) && !s.crashed && CanHappen(s, OutputRedrawn(p, outcome, animating)) && o in s.outputs
    ensures Remembers(s, Redraw(s, p, outcome, animating), OutputRedrawn(p, outcome, animating), o)
  {
    RenderRemembers(s, p, outcome, animating, o);
    LockPartsRemember(AfterRender(RenderIfActive(s, p, outcome, animating), p, outcome), {}, o);
  }

  lemma LockEventRemembers(s: State, e: Event, o: OutputId)
    requires TimerInv(s) && !s.crashed && CanHappen(s, e) && o in s.outputs
    requires e.LockRequest? || e.UnlockRequest? || e.LockSurfaceCreated? || e.LockSurfaceCommitted?
    ensures Remembers(s, Step(s, e), e, o)
  {
    match e
    case LockSurfaceCommitted(p, mapped) => LockPartsRemember(s, mapped, o);
    case _ =>
  }

  lemma TimerRemembers(s: State, t: Token, o: OutputId)
    requires TimerInv(s) && !s.crashed && CanHappen(s, TimerFires(t)) && o in s.outputs
    ensures Remembers(s, Step(s, TimerFires(t)), TimerFires(t), o)
  {
    LockPartsRemember(s.(timers := s.timers - {t}), {}, o);
    if s.timers[t].EstimatedVBlank? { FrameTimerLeavesLock(s, t); }
  }

  lemma MemoryStep(s: State, e: Event, o: OutputId)
    requires TimerInv(s) && !s.crashed && CanHappen(s, e) && o in s.outputs && !Concerns(e, o)
    ensures Remembers(s, Step(s, e), e, o)
  {
    match e
    case LockRequest(_, _) => LockEventRemembers(s, e, o);
    case UnlockRequest => LockEventRemembers(s, e, o);
    case LockSurfaceCreated(_, _, _) => LockEventRemembers(s, e, o);
    case LockSurfaceCommitted(_, _) => LockEventRemembers(s, e, o);
    case OutputRemoved(p, moved, uiClosed, mapped) => RemovalRemembers(s, p, moved, uiClosed, mapped, o);
    case OutputRedrawn(p, outcome, animating) => RedrawRemembers(s, p, outcome, animating, o);
    case TimerFires(t) => TimerRemembers(s, t, o);
    case _ =>
  }

  // A new output is about to be drawn, has no lock surface and shows nothing; only in a locked session
  // does that count as locked.
  lemma NewOutput(s: State, o: OutputId, moved: set<OutputId>)
    requires !s.crashed && o !in s.outputs
    ensures Step(s, OutputAdded(o, moved)).outputs[o] == Output(Queued, RenderStateOf(s), None, false, 0, Blank)
  {
  }

  // --- Lock surfaces over runs ------------------------------------------------------------------

  ghost predicate SurfacesNeedALock(s: State) {
    s.lock.Unlocked? ==> forall o :: o in s.outputs ==> s.outputs[o].lockSurface.None?
  }

  lemma SurfacesNeedALockStep(s: State, e: Event)
    requires TimerInv(s) && !s.crashed && CanHappen(s, e) && SurfacesNeedALock(s)
    ensures Step(s, e).crashed || SurfacesNeedALock(Step(s, e))
  {
    var s' := Step(s, e);
    if !s'.crashed && s'.lock.Unlocked? {
      TracksStep(s, e);
      assert [e][1..] == [];
      forall o | o in s'.outputs ensures s'.outputs[o].lockSurface.None? {
        if o in s.outputs && !Concerns(e, o) {
          MemoryStep(s, e, o);
        } else {
          assert e.OutputAdded? && e.output == o;
        }
      }
    }
  }

  // In every run, an unlocked session has no lock surfaces, so a new lock starts without any.
  lemma {:induction false} NoSurfaceWithoutALock(s: State, es: seq<Event>)
    requires LockInv(s) && TimerInv(s) && SurfacesNeedALock(s) && IsRun(s, es) && !Exec(s, es).crashed
    ensures SurfacesNeedALock(Exec(s, es))
    decreases es
  {
    if es != [] {
      CrashedIsFinal(s, es);
      CrashedIsFinal(Step(s, es[0]), es[1..]);
      SurfacesNeedALockStep(s, es[0]);
      StepKeeps(s, es[0]);
      NoSurfaceWithoutALock(Step(s, es[0]), es[1..]);
    }
  }
}
