/**
 While an output waits for a vblank or for its estimated-vblank timer, requests to redraw it are
 remembered. Which events are requests, and that at the end of the wait the output is redrawn exactly
 if there was one, or animations go on.
 */
module RedrawRequests {
  import opened Options
  import opened LockMachine
  import opened LockProofs
  import opened LockTheorems

  predicate Waits(r: RedrawState) {
    !r.Idle? && !r.Queued?
  }

  // The end of the wait, by a vblank or by the timer.
  predicate EndsWait(s: State, e: Event, o: OutputId) {
    || e == VBlank(o)
    || (e.TimerFires? && e.token in s.timers && s.timers[e.token] == EstimatedVBlank(o))
  }

  // Removing an output lets the lock start.
  predicate StartsLockingWithout(s: State, p: OutputId, mapped: set<SurfaceId>) {
    s.lock.WaitingForSurfaces? && forall q :: q in s.outputs && q != p ==> HasMappedSurface(s, q, mapped)
  }

  // A redraw of `p` that fails the lock.
  predicate FailsLock(s: State, p: OutputId, outcome: RenderOutcome) {
    && s.lock.Locking? && s.monitorsActive && IsSkip(s, outcome)
    && p in s.outputs && s.outputs[p].lockRender == ShowsSession
  }

  // The event asks for a redraw of `o`.
  predicate Requests(s: State, e: Event, o: OutputId) {
    match e
    case LockRequest(_, _) => false
    case UnlockRequest => true
    case LockSurfaceCreated(_, _, _) => false
    case LockSurfaceCommitted(p, mapped) =>
      if s.lock.WaitingForSurfaces? then LockSurfacesReady(s, mapped) else p == o
    case TimerFires(t) => s.lock.WaitingForSurfaces? && t == s.lock.deadline
    case OutputAdded(_, moved) => o in moved
    case OutputRemoved(p, moved, uiClosed, mapped) => o in moved || uiClosed || StartsLockingWithout(s, p, mapped)
    case RedrawsQueued(these) => o in these
    case OutputRedrawn(p, outcome, _) => FailsLock(s, p, outcome)
    case VBlank(_) => false
    case MonitorsOff => false
    case MonitorsOn => !s.monitorsActive
    case SessionResumed => true
  }

  ghost predicate RequestedIn(s: State, es: seq<Event>, o: OutputId)
    decreases es
  {
    es != [] && (Requests(s, es[0], o) || RequestedIn(Step(s, es[0]), es[1..], o))
  }

  // No event of the run ends the wait, redraws the output or takes it away.
  ghost predicate KeepsWaiting(s: State, es: seq<Event>, o: OutputId)
    decreases es
  {
    es == [] ||
    (!EndsWait(s, es[0], o) && !TouchesOutput(es[0], o) && KeepsWaiting(Step(s, es[0]), es[1..], o))
  }

  // --- One event --------------------------------------------------------------------------------

  // The output's redraw state after an event, given whether the event is a request.
  ghost predicate Marked(s: State, s': State, o: OutputId, requested: bool) {
    && o in s.outputs && o in s'.outputs
    && s'.outputs[o].redraw == (if requested then s.outputs[o].redraw.QueueRedraw() else s.outputs[o].redraw)
    && s'.outputs[o].animating == s.outputs[o].animating
  }

  lemma LockPartsMark(s: State, o: OutputId)
    requires o in s.outputs
    ensures Marked(s, Unlock(s), o, true)
    ensures Marked(s, ContinueToLocking(s), o, s.lock.WaitingForSurfaces?)
    ensures Marked(s, CheckLocking(s), o, false)
  {
  }

  lemma DropMarks(s: State, o: OutputId, p: OutputId, moved: set<OutputId>)
    requires o in s.outputs && p in s.outputs && o != p
    ensures var s1 := DropOutput(QueueRedraws(s, moved), p);
            && Marked(s, s1, o, o in moved) && s1.lock == s.lock
            && (forall q :: q in s1.outputs ==>
                  q in s.outputs && q != p && s1.outputs[q].lockSurface == s.outputs[q].lockSurface)
            && (forall q :: q in s.outputs && q != p ==> q in s1.outputs)
  {
  }

  lemma RecheckMarks(s: State, o: OutputId, mapped: set<SurfaceId>)
    requires o in s.outputs
    ensures Marked(s, RecheckLock(s, mapped), o, s.lock.WaitingForSurfaces? && LockSurfacesReady(s, mapped))
  {
    LockPartsMark(s, o);
  }

  lemma QueueAllMarks(s: State, o: OutputId)
    requires o in s.outputs
    ensures Marked(s, QueueRedrawAll(s), o, true)
  {
  }

  lemma MarkedTwice(s: State, s1: State, s2: State, o: OutputId, first: bool, second: bool)
    requires Marked(s, s1, o, first) && Marked(s1, s2, o, second)
    ensures Marked(s, s2, o, first || second)
  {
  }

  lemma RemovalMarks(s: State, o: OutputId, p: OutputId, moved: set<OutputId>, uiClosed: bool, mapped: set<SurfaceId>)
    requires o in s.outputs && p in s.outputs && o != p
    ensures Marked(s, RemoveOutput(s, p, moved, uiClosed, mapped), o,
                   o in moved || uiClosed || StartsLockingWithout(s, p, mapped))
  {
    var starts := StartsLockingWithout(s, p, mapped);
    var s1 := DropOutput(QueueRedraws(s, moved), p);
    DropMarks(s, o, p, moved);
    ReadyWithout(s, s1, p, mapped);
    var s2 := RecheckLock(s1, mapped);
    RecheckMarks(s1, o, mapped);
    MarkedTwice(s, s1, s2, o, o in moved, starts);
    if uiClosed {
      QueueAllMarks(s2, o);
      MarkedTwice(s, s2, QueueRedrawAll(s2), o, o in moved || starts, true);
    }
  }

  lemma ReadyWithout(s: State, s1: State, p: OutputId, mapped: set<SurfaceId>)
    requires s1.lock == s.lock
    requires forall q :: q in s1.outputs ==>
               q in s.outputs && q != p && s1.outputs[q].lockSurface == s.outputs[q].lockSurface
    requires forall q :: q in s.outputs && q != p ==> q in s1.outputs
    ensures s1.lock.WaitingForSurfaces? && LockSurfacesReady(s1, mapped) <==> StartsLockingWithout(s, p, mapped)
  {
    if StartsLockingWithout(s, p, mapped) {
      forall q | q in s1.outputs ensures s1.outputs[q].lockSurface.Some? && s1.outputs[q].lockSurface.value in mapped {
        assert HasMappedSurface(s, q, mapped);
      }
    }
  }

  lemma RedrawMarks(s: State, o: OutputId, p: OutputId, outcome: RenderOutcome, animating: bool)
    requires TimerInv(s) && !s.crashed && o in s.outputs && o != p
    requires CanHappen(s, OutputRedrawn(p, outcome, animating))
    ensures Marked(s, Redraw(s, p, outcome, animating), o, FailsLock(s, p, outcome))
  {
    RenderIsLocal(s, p, outcome, animating);
    RenderKeeps(s, p, outcome, animating);
    var s1 := RenderIfActive(s, p, outcome, animating);
    var s2 := AfterRender(s1, p, outcome);
    assert s2.outputs[o] == s.outputs[o] && s2.lock == s.lock;
    LockPartsMark(s2, o);
  }

  lemma OtherTimerMarks(s: State, o: OutputId, t: Token, p: OutputId)
    requires o in s.outputs && o != p && t in s.timers && s.timers[t] == EstimatedVBlank(p)
    ensures Marked(s, FireTimer(s, t), o, false)
  {
  }

  lemma StepMarks(s: State, e: Event, o: OutputId)
    requires TimerInv(s) && !s.crashed && CanHappen(s, e) && o in s.outputs
    requires !EndsWait(s, e, o) && !TouchesOutput(e, o)
    ensures Marked(s, Step(s, e), o, Requests(s, e, o))
  {
    match e
    case LockRequest(l, alive) =>
    case UnlockRequest => LockPartsMark(s, o);
    case LockSurfaceCreated(_, _, _) =>
    case LockSurfaceCommitted(p, mapped) => LockPartsMark(s, o);
    case TimerFires(t) =>
      if s.timers[t].Deadline? {
        LockPartsMark(s.(timers := s.timers - {t}), o);
      } else {
        OtherTimerMarks(s, o, t, s.timers[t].output);
      }
    case OutputAdded(p, moved) =>
    case OutputRemoved(p, moved, uiClosed, mapped) => RemovalMarks(s, o, p, moved, uiClosed, mapped);
    case RedrawsQueued(these) =>
    case OutputRedrawn(p, outcome, animating) => RedrawMarks(s, o, p, outcome, animating);
    case VBlank(_) =>
    case MonitorsOff =>
    case MonitorsOn =>
    case SessionResumed =>
  }

  // --- Runs -------------------------------------------------------------------------------------

  lemma {:induction false} RunMarks(s: State, es: seq<Event>, o: OutputId)
    requires LockInv(s) && TimerInv(s) && o in s.outputs && IsRun(s, es) && KeepsWaiting(s, es, o)
    requires !Exec(s, es).crashed
    ensures Marked(s, Exec(s, es), o, RequestedIn(s, es, o))
    decreases es
  {
    if es != [] {
      CrashedIsFinal(s, es);
      StepMarks(s, es[0], o);
      StepKeeps(s, es[0]);
      RunMarks(Step(s, es[0]), es[1..], o);
    }
  }

  lemma EndOfWait(s: State, e: Event, o: OutputId)
    requires o in s.outputs && Waits(s.outputs[o].redraw) && EndsWait(s, e, o) && !Step(s, e).crashed
    requires e == VBlank(o) ==> s.outputs[o].redraw.WaitingForVBlank?
    ensures o in Step(s, e).outputs && Step(s, e).outputs[o].redraw ==
            if s.outputs[o].redraw.Pending() || s.outputs[o].animating then Queued else Idle
  {
  }

  // Across any run that keeps an output waiting, and the event that ends its wait: it is then queued
  // exactly if a redraw was pending from before, or was requested in between, or animations go on.
  lemma {:induction false} RedrawnExactlyWhenRequested(s: State, es: seq<Event>, e: Event, o: OutputId)
    requires LockInv(s) && TimerInv(s) && o in s.outputs && Waits(s.outputs[o].redraw)
    requires IsRun(s, es) && KeepsWaiting(s, es, o) && EndsWait(Exec(s, es), e, o)
    requires e == VBlank(o) ==> s.outputs[o].redraw.WaitingForVBlank?
    requires !Step(Exec(s, es), e).crashed
    ensures var s' := Step(Exec(s, es), e);
            o in s'.outputs && s'.outputs[o].redraw ==
            if s.outputs[o].redraw.Pending() || RequestedIn(s, es, o) || s.outputs[o].animating then Queued else Idle
  {
    RunMarks(s, es, o);
    EndOfWait(Exec(s, es), e, o);
  }
}
