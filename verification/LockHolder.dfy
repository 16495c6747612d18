/**
 Who holds the session lock. The first request wins while it is being worked on, a live holder is
 never replaced, and a dead one is replaced by the next request.
 */
module LockHolder {
  import opened Options
  import opened LockMachine
  import opened LockProofs
  import opened LockTheorems

  // A request over a holder whose client is gone.
  predicate IsTakeover(e: Event) {
    e.LockRequest? && !e.holderAlive
  }

  function Accepted(es: seq<Event>): set<LockId> {
    if es == [] then {} else (if IsTakeover(es[0]) then {es[0].lock} else {}) + Accepted(es[1..])
  }

  function Refused(es: seq<Event>): set<LockId> {
    if es == [] then {}
    else (if es[0].LockRequest? && es[0].holderAlive then {es[0].lock} else {}) + Refused(es[1..])
  }

  // --- A confirmed lock -------------------------------------------------------------------------

  // What an event other than an unlock request does to a confirmed lock.
  ghost predicate HoldsOn(s: State, s': State, e: Event) {
    && s'.lock == (if IsTakeover(e) then Locked(e.lock) else s.lock)
    && s'.lockedSent == s.lockedSent + (if IsTakeover(e) then {e.lock} else {})
    && s'.finishedSent == s.finishedSent + (if e.LockRequest? && e.holderAlive then {e.lock} else {})
  }

  lemma RemovalHoldsOn(s: State, o: OutputId, moved: set<OutputId>, uiClosed: bool, mapped: set<SurfaceId>)
    requires s.lock.Locked?
    ensures SameLock(s, RemoveOutput(s, o, moved, uiClosed, mapped))
  {
  }

  lemma RedrawHoldsOn(s: State, o: OutputId, outcome: RenderOutcome, animating: bool)
    requires s.lock.Locked?
    ensures SameLock(s, Redraw(s, o, outcome, animating))
  {
    if o in s.outputs && s.outputs[o].redraw.IsQueued() {
      RenderIsLocal(s, o, outcome, animating);
    }
  }

  // The holder changes only at a takeover or an unlock request.
  lemma HolderStep(s: State, e: Event)
    requires s.lock.Locked? && !s.crashed && e != UnlockRequest
    ensures HoldsOn(s, Step(s, e), e)
  {
    if AsideFromLock(e) {
      AsideFromLockStep(s, e);
    } else {
      match e
      case LockRequest(l, alive) =>
      case LockSurfaceCommitted(o, mapped) => assert SameLock(s, LockSurfaceCommit(s, o, mapped));
      case TimerFires(t) =>
        if t in s.timers && s.timers[t].EstimatedVBlank? { FrameTimerLeavesLock(s, t); }
      case OutputRemoved(o, moved, uiClosed, mapped) => RemovalHoldsOn(s, o, moved, uiClosed, mapped);
      case OutputRedrawn(o, outcome, animating) => RedrawHoldsOn(s, o, outcome, animating);
    }
  }

  // No takeover at or after position i.
  ghost predicate NoTakeoverFrom(es: seq<Event>, i: int) {
    forall k :: 0 <= k < |es| && i <= k ==> !IsTakeover(es[k])
  }

  // Over any run without an unlock request: the lock is held by the object of the last takeover, or
  // by the first holder if there is none; exactly the takeovers are told `locked`, and exactly the
  // other requests `finished`.
  lemma {:induction false} HolderExactly(s: State, es: seq<Event>)
    requires s.lock.Locked? && UnlockRequest !in es && !Exec(s, es).crashed
    ensures NoTakeoverFrom(es, 0) ==> Exec(s, es).lock == s.lock
    ensures forall j :: 0 <= j < |es| && IsTakeover(es[j]) && NoTakeoverFrom(es, j + 1) ==>
              Exec(s, es).lock == Locked(es[j].lock)
    ensures Exec(s, es).lockedSent == s.lockedSent + Accepted(es)
    ensures Exec(s, es).finishedSent == s.finishedSent + Refused(es)
    decreases es
  {
    if es != [] {
      var s1, rest := Step(s, es[0]), es[1..];
      CrashedIsFinal(s, es);
      HolderStep(s, es[0]);
      HolderExactly(s1, rest);
      assert forall k :: 0 <= k < |rest| ==> rest[k] == es[k + 1];
      forall j | 0 <= j < |es| && IsTakeover(es[j]) && NoTakeoverFrom(es, j + 1)
        ensures Exec(s, es).lock == Locked(es[j].lock)
      {
        if j == 0 {
          assert NoTakeoverFrom(rest, 0);
        } else {
          assert IsTakeover(rest[j - 1]) && NoTakeoverFrom(rest, j);
        }
      }
      if NoTakeoverFrom(es, 0) {
        assert !IsTakeover(es[0]) && NoTakeoverFrom(rest, 0);
      }
    }
  }

  lemma {:induction false} RefusedAll(es: seq<Event>)
    requires NoTakeoverFrom(es, 0)
    ensures Refused(es) == Requested(es)
    decreases es
  {
    if es != [] {
      assert forall k :: 0 <= k < |es| - 1 ==> es[1..][k] == es[k + 1];
      assert !IsTakeover(es[0]);
      RefusedAll(es[1..]);
    }
  }

  // In particular, while its client lives, a holder is never replaced, and every request is refused.
  lemma {:induction false} LiveHolderIsNotReplaced(s: State, es: seq<Event>)
    requires s.lock.Locked? && UnlockRequest !in es && !Exec(s, es).crashed && NoTakeoverFrom(es, 0)
    ensures Exec(s, es).lock == s.lock
    ensures Exec(s, es).finishedSent == s.finishedSent + Requested(es)
  {
    HolderExactly(s, es);
    RefusedAll(es);
  }

  // --- A lock being worked on -------------------------------------------------------------------

  // Any event leaves the object that is being worked on alone, or gives it its answer; another request
  // meanwhile is refused.
  ghost predicate FirstWins(s: State, s': State, e: Event, l: LockId) {
    && (|| s'.lock.Undecided() == {l}
        || (s'.lock == Locked(l) && l in s'.lockedSent)
        || (s'.lock == Unlocked && l in s'.finishedSent))
    && (e.LockRequest? ==> s'.lock == s.lock && s'.finishedSent == s.finishedSent + {e.lock})
  }

  lemma RedrawFirstWins(s: State, o: OutputId, outcome: RenderOutcome, animating: bool, l: LockId)
    requires s.lock.Undecided() == {l}
    ensures FirstWins(s, Redraw(s, o, outcome, animating), OutputRedrawn(o, outcome, animating), l)
  {
    if o in s.outputs && s.outputs[o].redraw.IsQueued() {
      RenderIsLocal(s, o, outcome, animating);
    }
  }

  lemma FirstRequestWins(s: State, e: Event, l: LockId)
    requires s.lock.Undecided() == {l} && !s.crashed
    ensures FirstWins(s, Step(s, e), e, l)
  {
    if AsideFromLock(e) {
      AsideFromLockStep(s, e);
    } else {
      match e
      case LockRequest(_, _) =>
      case UnlockRequest =>
      case LockSurfaceCommitted(o, mapped) =>
      case TimerFires(t) =>
        if t in s.timers && s.timers[t].EstimatedVBlank? { FrameTimerLeavesLock(s, t); }
      case OutputRemoved(o, moved, uiClosed, mapped) =>
      case OutputRedrawn(o, outcome, animating) => RedrawFirstWins(s, o, outcome, animating, l);
    }
  }

  ghost predicate UndecidedThroughout(s: State, es: seq<Event>)
    decreases es
  {
    s.lock.Undecided() != {} && (es == [] || UndecidedThroughout(Step(s, es[0]), es[1..]))
  }

  // As long as a lock is being worked on, it is the one that was requested first, and every request
  // since has been refused.
  lemma {:induction false} FirstRequestKeepsTheLock(s: State, es: seq<Event>, l: LockId)
    requires s.lock.Undecided() == {l} && UndecidedThroughout(s, es) && !Exec(s, es).crashed
    ensures Exec(s, es).lock.Undecided() == {l}
    ensures Requested(es) <= Exec(s, es).finishedSent && s.finishedSent <= Exec(s, es).finishedSent
    decreases es
  {
    if es != [] {
      CrashedIsFinal(s, es);
      FirstRequestWins(s, es[0], l);
      FinishedStaysFinished(s, es[0]);
      assert UndecidedThroughout(Step(s, es[0]), es[1..]);
      FirstRequestKeepsTheLock(Step(s, es[0]), es[1..], l);
    }
  }

  lemma FinishedStaysFinished(s: State, e: Event)
    requires !s.crashed
    ensures s.finishedSent <= Step(s, e).finishedSent
  {
    if AsideFromLock(e) {
      AsideFromLockStep(s, e);
    } else {
      match e
      case LockRequest(_, _) =>
      case UnlockRequest =>
      case LockSurfaceCommitted(o, mapped) =>
      case TimerFires(t) =>
        if t in s.timers && s.timers[t].EstimatedVBlank? { FrameTimerLeavesLock(s, t); }
      case OutputRemoved(o, moved, uiClosed, mapped) =>
      case OutputRedrawn(o, outcome, animating) =>
        if o in s.outputs && s.outputs[o].redraw.IsQueued() { RenderIsLocal(s, o, outcome, animating); }
    }
  }

  // A request on an unlocked session is granted at once exactly if there is nothing to cover;
  // otherwise it is worked on, with a fresh deadline.
  lemma RequestOnUnlockedSession(s: State, l: LockId, alive: bool)
    requires s.lock == Unlocked && !s.crashed && TimerInv(s) && CanHappen(s, LockRequest(l, alive))
    ensures var s' := Step(s, LockRequest(l, alive));
            && (s'.lock == Locked(l) <==> s.outputs == map[])
            && (l in s'.lockedSent <==> s.outputs == map[])
            && (s.outputs != map[] ==>
                  && s'.lock.WaitingForSurfaces? && s'.lock.locker == l
                  && s'.lock.deadline !in s.timers && s'.timers == s.timers[s'.lock.deadline := Deadline])
            && l !in s'.finishedSent && s'.outputs == s.outputs
  {
  }
}
