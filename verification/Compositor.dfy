/**
 The compositor's lock and redraw code in the form it has in the program: fields that the
 methods update. Every method does what the function of the same name in `LockMachine` says.
 */
module Compositor {
  import opened Options
  import opened LockMachine
  import LockProofs
  import LockTheorems

  class Niri {
    const backend: Backend
    var lock: LockState
    var outputs: map<OutputId, Output>
    var monitorsActive: bool
    // The event loop's live timers.
    var timers: map<Token, Timer>
    var nextToken: Token
    // The lock objects that were sent `locked` and `finished`.
    var lockedSent: set<LockId>
    var finishedSent: set<LockId>
    var crashed: bool

    ghost function View(): State
      reads this
    {
      State(backend, lock, outputs, monitorsActive, timers, nextToken, lockedSent, finishedSent, crashed)
    }

    // A confirmed lock covers every output, locking makes progress, every lock object has one
    // answer, and the timers are those the states refer to.
    ghost predicate Valid()
      reads this
    {
      LockProofs.LockInv(View()) && LockProofs.TimerInv(View())
    }

    // The event can happen now.
    ghost predicate Awaits(e: Event)
      reads this
    {
      Valid() && !crashed && CanHappen(View(), e)
    }

    constructor (backend: Backend)
      ensures View() == Init(backend) && Valid()
    {
      this.backend := backend;
      lock, outputs, monitorsActive := Unlocked, map[], true;
      timers, nextToken := map[], 0;
      lockedSent, finishedSent, crashed := {}, {}, false;
    }

    // --- Event loop -----------------------------------------------------------------------------

    method InsertTimer(timer: Timer) returns (token: Token)
      modifies this`timers, this`nextToken
      ensures token == old(nextToken) && nextToken == token + 1 && timers == old(timers)[token := timer]
    {
      token := nextToken;
      timers := timers[token := timer];
      nextToken := nextToken + 1;
    }

    method RemoveTimer(token: Token)
      modifies this`timers
      ensures timers == old(timers) - {token}
    {
      timers := timers - {token};
    }

    // --- Queueing -------------------------------------------------------------------------------

    method QueueRedraws(os: set<OutputId>)
      modifies this`outputs
      ensures View() == LockMachine.QueueRedraws(old(View()), os)
      ensures old(Awaits(RedrawsQueued(os))) ==> Valid()
    {
      if Awaits(RedrawsQueued(os)) { LockProofs.StepKeeps(View(), RedrawsQueued(os)); }
      ghost var before := outputs;
      var todo := os * outputs.Keys;
      while todo != {}
        invariant todo <= os && outputs.Keys == before.Keys && todo <= outputs.Keys
        invariant forall o :: o in before ==>
          outputs[o] == if o in os - todo then before[o].(redraw := before[o].redraw.QueueRedraw()) else before[o]
        decreases todo
      {
        var o :| o in todo;
        outputs := outputs[o := outputs[o].(redraw := outputs[o].redraw.QueueRedraw())];
        todo := todo - {o};
      }
      assert outputs == LockMachine.QueueRedraws(old(View()), os).outputs;
    }

    method QueueRedrawAll()
      modifies this`outputs
      ensures View() == LockMachine.QueueRedrawAll(old(View()))
    {
      QueueRedraws(outputs.Keys);
    }

    method AllOutputsShowLock() returns (all: bool)
      ensures all <==> AllShowLock(View())
    {
      var todo := outputs.Keys;
      while todo != {}
        invariant todo <= outputs.Keys
        invariant forall o :: o in outputs.Keys - todo ==> outputs[o].lockRender == ShowsLock
        decreases todo
      {
        var o :| o in todo;
        if outputs[o].lockRender != ShowsLock {
          return false;
        }
        todo := todo - {o};
      }
      return true;
    }

    // --- Session lock ---------------------------------------------------------------------------

    method Confirm(l: LockId)
      modifies this`lock, this`lockedSent
      ensures View() == LockMachine.Confirm(old(View()), l)
    {
      lockedSent := lockedSent + {l};
      lock := Locked(l);
    }

    // A confirmation that is dropped unused tells its client that the lock is finished.
    method DropConfirmation(l: LockId)
      modifies this`finishedSent
      ensures finishedSent == old(finishedSent) + {l}
    {
      finishedSent := finishedSent + {l};
    }

    method Lock(l: LockId, holderAlive: bool)
      modifies this
      ensures View() == LockMachine.Lock(old(View()), l, holderAlive)
      ensures old(Awaits(LockRequest(l, holderAlive))) ==> Valid()
    {
      if Awaits(LockRequest(l, holderAlive)) { LockProofs.StepKeeps(View(), LockRequest(l, holderAlive)); }
      if lock.WaitingForSurfaces? || lock.Locking? {
        DropConfirmation(l);
        return;
      }
      if lock.Locked? {
        if holderAlive {
          DropConfirmation(l);
          return;
        }
        Confirm(l);
        return;
      }
      if outputs == map[] {
        Confirm(l);
      } else {
        var token := InsertTimer(Deadline);
        lock := WaitingForSurfaces(l, token);
      }
    }

    method ContinueToLocking()
      modifies this
      ensures View() == LockMachine.ContinueToLocking(old(View()))
    {
      var taken := lock;
      lock := Unlocked;
      match taken {
        case WaitingForSurfaces(l, deadline) =>
          RemoveTimer(deadline);
          if outputs == map[] {
            Confirm(l);
          } else {
            lock := Locking(l);
            QueueRedrawAll();
          }
        case other =>
          lock := other;
      }
    }

    method MaybeContinueToLocking(mapped: set<SurfaceId>)
      modifies this
      ensures View() == LockMachine.MaybeContinueToLocking(old(View()), mapped)
    {
      if !lock.WaitingForSurfaces? {
        return;
      }
      var todo := outputs.Keys;
      while todo != {}
        invariant View() == old(View()) && todo <= outputs.Keys
        invariant forall o :: o in outputs.Keys - todo ==>
          outputs[o].lockSurface.Some? && outputs[o].lockSurface.value in mapped
        decreases todo
      {
        var o :| o in todo;
        if outputs[o].lockSurface.None? {
          return;
        }
        if outputs[o].lockSurface.value !in mapped {
          return;
        }
        todo := todo - {o};
      }
      ContinueToLocking();
    }

    method ClearLockSurfaces()
      modifies this`outputs
      ensures outputs.Keys == old(outputs).Keys
      ensures forall o :: o in outputs ==> outputs[o] == old(outputs)[o].(lockSurface := None)
    {
      ghost var before := outputs;
      var todo := outputs.Keys;
      while todo != {}
        invariant outputs.Keys == before.Keys && todo <= outputs.Keys
        invariant forall o :: o in before ==>
          outputs[o] == if o in todo then before[o] else before[o].(lockSurface := None)
        decreases todo
      {
        var o :| o in todo;
        outputs := outputs[o := outputs[o].(lockSurface := None)];
        todo := todo - {o};
      }
    }

    method Unlock()
      modifies this
      ensures View() == LockMachine.Unlock(old(View()))
      ensures old(Awaits(UnlockRequest)) ==> Valid()
    {
      if Awaits(UnlockRequest) { LockProofs.StepKeeps(View(), UnlockRequest); }
      var prev := lock;
      lock := Unlocked;
      if prev.WaitingForSurfaces? {
        RemoveTimer(prev.deadline);
      }
      ClearLockSurfaces();
      ghost var cleared := old(View()).(lock := Unlocked, timers := timers,
                                        outputs := map o | o in old(outputs) :: old(outputs)[o].(lockSurface := None));
      assert outputs == cleared.outputs;
      QueueRedrawAll();
      assert outputs == LockMachine.QueueRedrawAll(cleared).outputs;
      if prev.WaitingForSurfaces? || prev.Locking? {
        DropConfirmation(prev.locker);
      }
    }

    method NewLockSurface(o: OutputId, surface: SurfaceId, sameClient: bool)
      modifies this`outputs
      ensures View() == LockMachine.NewLockSurface(old(View()), o, surface, sameClient)
      ensures old(Awaits(LockSurfaceCreated(o, surface, sameClient))) ==> Valid()
    {
      if Awaits(LockSurfaceCreated(o, surface, sameClient)) {
        LockProofs.StepKeeps(View(), LockSurfaceCreated(o, surface, sameClient));
      }
      if lock.Unlocked? {
        return;
      }
      if !sameClient {
        return;
      }
      if o !in outputs {
        return;
      }
      outputs := outputs[o := outputs[o].(lockSurface := Some(surface))];
    }

    method LockSurfaceCommit(o: OutputId, mapped: set<SurfaceId>)
      modifies this
      ensures View() == LockMachine.LockSurfaceCommit(old(View()), o, mapped)
      ensures old(Awaits(LockSurfaceCommitted(o, mapped))) ==> Valid()
    {
      if Awaits(LockSurfaceCommitted(o, mapped)) { LockProofs.StepKeeps(View(), LockSurfaceCommitted(o, mapped)); }
      if lock.WaitingForSurfaces? {
        MaybeContinueToLocking(mapped);
      } else {
        QueueRedraws({o});
      }
    }

    // --- Outputs --------------------------------------------------------------------------------

    method AddOutput(o: OutputId, moved: set<OutputId>)
      modifies this
      ensures View() == LockMachine.AddOutput(old(View()), o, moved)
      ensures old(Awaits(OutputAdded(o, moved))) ==> Valid()
    {
      if Awaits(OutputAdded(o, moved)) { LockProofs.StepKeeps(View(), OutputAdded(o, moved)); }
      var lockRender := if lock.IsLocked() then ShowsLock else ShowsSession;
      if o in outputs {
        crashed := true;
        return;
      }
      outputs := outputs[o := Output(Idle, lockRender, None, false, 0, Blank)];
      QueueRedraws(moved + {o});
    }

    method RemoveOutput(o: OutputId, moved: set<OutputId>, uiClosed: bool, mapped: set<SurfaceId>)
      modifies this
      ensures View() == LockMachine.RemoveOutput(old(View()), o, moved, uiClosed, mapped)
      ensures old(Awaits(OutputRemoved(o, moved, uiClosed, mapped))) ==> Valid()
    {
      if Awaits(OutputRemoved(o, moved, uiClosed, mapped)) {
        LockProofs.StepKeeps(View(), OutputRemoved(o, moved, uiClosed, mapped));
      }
      if o !in outputs {
        crashed := true;
        return;
      }
      QueueRedraws(moved);
      var redraw := outputs[o].redraw;
      outputs := outputs - {o};
      match redraw {
        case WaitingForEstimatedVBlank(token) => RemoveTimer(token);
        case WaitingForEstimatedVBlankAndQueued(token) => RemoveTimer(token);
        case _ =>
      }
      assert View() == DropOutput(LockMachine.QueueRedraws(old(View()), moved), o);
      if lock.Locking? {
        SettleIfAllShowLock();
      } else {
        MaybeContinueToLocking(mapped);
      }
      if uiClosed {
        QueueRedrawAll();
      }
    }

    method SettleIfAllShowLock()
      requires lock.Locking?
      modifies this
      ensures View() == CheckLocking(old(View()))
    {
      var all := AllOutputsShowLock();
      if all {
        Confirm(lock.locker);
      }
    }

    // --- Redrawing ------------------------------------------------------------------------------

    method QueueEstimatedVBlankTimer(o: OutputId)
      requires o in outputs
      modifies this
      ensures View() == QueueEstimatedVBlank(old(View()), o)
    {
      match outputs[o].redraw {
        case Idle => crashed := true;
        case WaitingForVBlank(_) => crashed := true;
        case Queued =>
          var token := InsertTimer(EstimatedVBlank(o));
          outputs := outputs[o := outputs[o].(redraw := WaitingForEstimatedVBlank(token))];
        case WaitingForEstimatedVBlank(token) =>
          outputs := outputs[o := outputs[o].(redraw := WaitingForEstimatedVBlank(token))];
        case WaitingForEstimatedVBlankAndQueued(token) =>
          outputs := outputs[o := outputs[o].(redraw := WaitingForEstimatedVBlank(token))];
      }
    }

    method Present(o: OutputId)
      requires o in outputs
      modifies this`outputs
      ensures View() == LockMachine.Present(old(View()), o)
    {
      var frame := if lock.IsLocked() then LockFrame else SessionFrame;
      outputs := outputs[o := outputs[o].(shown := frame)];
    }

    method SubmitFrame(o: OutputId)
      requires o in outputs
      modifies this
      ensures View() == LockMachine.SubmitFrame(old(View()), o)
    {
      var prev := outputs[o].redraw;
      match prev {
        case Queued =>
        case WaitingForEstimatedVBlankAndQueued(token) => RemoveTimer(token);
        case _ =>
          crashed := true;
          return;
      }
      outputs := outputs[o := outputs[o].(redraw := WaitingForVBlank(false))];
      outputs := outputs[o := outputs[o].(callbackSequence := Bump(outputs[o].callbackSequence))];
    }

    method TtyRender(o: OutputId, outcome: RenderOutcome)
      requires o in outputs
      modifies this
      ensures View() == LockMachine.TtyRender(old(View()), o, outcome)
    {
      match outcome {
        case NotAttempted =>
        case Submitted =>
          Present(o);
          SubmitFrame(o);
        case NoDamage =>
          Present(o);
          QueueEstimatedVBlankTimer(o);
        case Failed =>
          QueueEstimatedVBlankTimer(o);
      }
    }

    method DirectRender(o: OutputId)
      requires o in outputs
      modifies this
      ensures View() == LockMachine.DirectRender(old(View()), o)
    {
      Present(o);
      if !outputs[o].redraw.Queued? {
        crashed := true;
        return;
      }
      outputs := outputs[o := outputs[o].(redraw := Idle, callbackSequence := Bump(outputs[o].callbackSequence))];
    }

    method RenderIfActive(o: OutputId, outcome: RenderOutcome, animating: bool)
      requires o in outputs
      modifies this
      ensures View() == LockMachine.RenderIfActive(old(View()), o, outcome, animating)
    {
      if monitorsActive {
        outputs := outputs[o := outputs[o].(animating := animating)];
        if backend.Tty? {
          TtyRender(o, outcome);
        } else {
          DirectRender(o);
        }
      }
    }

    method AfterRender(o: OutputId, skipped: bool, ghost outcome: RenderOutcome)
      requires o in outputs && (skipped <==> IsSkip(View(), outcome))
      modifies this`outputs
      ensures View() == LockMachine.AfterRender(old(View()), o, outcome)
    {
      var isLocked := lock.IsLocked();
      if skipped {
        outputs := outputs[o := outputs[o].(redraw := outputs[o].redraw.Skipped())];
      }
      if !skipped || !monitorsActive {
        outputs := outputs[o := outputs[o].(lockRender := if isLocked then ShowsLock else ShowsSession)];
      }
    }

    method SettleLocking(o: OutputId)
      requires o in outputs
      modifies this
      ensures View() == LockMachine.SettleLocking(old(View()), o)
    {
      var taken := lock;
      lock := Unlocked;
      match taken {
        case Locking(l) =>
          if outputs[o].lockRender == ShowsSession {
            Unlock();
            DropConfirmation(l);
          } else {
            var all := AllOutputsShowLock();
            if all {
              Confirm(l);
            } else {
              lock := Locking(l);
            }
          }
        case other =>
          lock := other;
      }
    }

    method Redraw(o: OutputId, outcome: RenderOutcome, animating: bool)
      modifies this
      ensures View() == LockMachine.Redraw(old(View()), o, outcome, animating)
      ensures old(Awaits(OutputRedrawn(o, outcome, animating))) ==> Valid()
    {
      if Awaits(OutputRedrawn(o, outcome, animating)) {
        LockProofs.StepKeeps(View(), OutputRedrawn(o, outcome, animating));
      }
      if o !in outputs || !outputs[o].redraw.IsQueued() {
        crashed := true;
        return;
      }
      RenderIfActive(o, outcome, animating);
      LockProofs.RenderIsLocal(old(View()), o, outcome, animating);
      if crashed {
        return;
      }
      AfterRender(o, !monitorsActive || outcome.Failed? || outcome.NotAttempted?, outcome);
      SettleLocking(o);
    }

    // Redraws until nothing is queued. The n-th redraw ends as `outcomes(n)` says, with animations
    // going on as `animating(n)` says.
    method RedrawQueuedOutputs(outcomes: nat -> RenderOutcome, animating: nat -> bool) returns (ghost trace: seq<Event>)
      requires Valid() && !crashed
      requires forall n :: CanEnd(backend, outcomes(n))
      modifies this
      ensures LockTheorems.QueuedOutputs(View()) == {}
      ensures IsRun(old(View()), trace) && View() == Exec(old(View()), trace)
      ensures forall i :: 0 <= i < |trace| ==> trace[i].OutputRedrawn?
      ensures |trace| <= LockTheorems.RedrawBudget(old(View()))
      ensures Valid() && !crashed
    {
      trace := [];
      var n: nat := 0;
      while exists o :: o in outputs && outputs[o].redraw.IsQueued()
        invariant Valid() && !crashed
        invariant IsRun(old(View()), trace) && View() == Exec(old(View()), trace)
        invariant forall i :: 0 <= i < |trace| ==> trace[i].OutputRedrawn?
        decreases LockTheorems.RedrawBudget(View())
      {
        var o :| o in outputs && outputs[o].redraw.IsQueued();
        ghost var s := View();
        ghost var e := OutputRedrawn(o, outcomes(n), animating(n));
        LockTheorems.RedrawSpendsBudget(s, o, outcomes(n), animating(n));
        LockTheorems.RedrawSurvives(s, o, outcomes(n), animating(n));
        LockTheorems.RunAppend(old(View()), trace, e);
        Redraw(o, outcomes(n), animating(n));
        trace := trace + [e];
        n := n + 1;
      }
      LockTheorems.RedrawLoopEnds(old(View()), trace);
    }

    method OnVBlank(o: OutputId)
      modifies this`outputs
      ensures View() == LockMachine.OnVBlank(old(View()), o)
      ensures old(Awaits(VBlank(o))) ==> Valid()
    {
      if Awaits(VBlank(o)) { LockProofs.StepKeeps(View(), VBlank(o)); }
      if o !in outputs {
        return;
      }
      var prev := outputs[o].redraw;
      outputs := outputs[o := outputs[o].(redraw := Idle)];
      var redrawNeeded := if prev.WaitingForVBlank? then prev.redrawNeeded else true;
      if redrawNeeded || outputs[o].animating {
        QueueRedraws({o});
      }
      assert outputs == LockMachine.OnVBlank(old(View()), o).outputs;
    }

    method OnEstimatedVBlankTimer(o: OutputId)
      modifies this
      ensures View() == LockMachine.OnEstimatedVBlank(old(View()), o)
    {
      if o !in outputs {
        return;
      }
      var prev := outputs[o].redraw;
      if prev.Idle? || prev.Queued? || prev.WaitingForVBlank? {
        crashed := true;
        return;
      }
      outputs := outputs[o := outputs[o].(redraw := Idle, callbackSequence := Bump(outputs[o].callbackSequence))];
      if prev.WaitingForEstimatedVBlankAndQueued? {
        outputs := outputs[o := outputs[o].(redraw := Queued)];
        return;
      }
      if outputs[o].animating {
        QueueRedraws({o});
      }
      assert outputs == LockMachine.OnEstimatedVBlank(old(View()), o).outputs;
    }

    method FireTimer(t: Token)
      modifies this
      ensures View() == LockMachine.FireTimer(old(View()), t)
      ensures old(Awaits(TimerFires(t))) ==> Valid()
    {
      if Awaits(TimerFires(t)) { LockProofs.StepKeeps(View(), TimerFires(t)); }
      if t !in timers {
        return;
      }
      var timer := timers[t];
      RemoveTimer(t);
      match timer {
        case Deadline => ContinueToLocking();
        case EstimatedVBlank(o) => OnEstimatedVBlankTimer(o);
      }
    }

    // --- Monitors -------------------------------------------------------------------------------

    method ClearScreens()
      modifies this`outputs
      ensures outputs.Keys == old(outputs).Keys
      ensures forall o :: o in outputs ==> outputs[o] == old(outputs)[o].(shown := Blank)
    {
      ghost var before := outputs;
      var todo := outputs.Keys;
      while todo != {}
        invariant outputs.Keys == before.Keys && todo <= outputs.Keys
        invariant forall o :: o in before ==> outputs[o] == if o in todo then before[o] else before[o].(shown := Blank)
        decreases todo
      {
        var o :| o in todo;
        outputs := outputs[o := outputs[o].(shown := Blank)];
        todo := todo - {o};
      }
    }

    method DeactivateMonitors()
      modifies this`monitorsActive, this`outputs
      ensures View() == LockMachine.DeactivateMonitors(old(View()))
      ensures old(Awaits(MonitorsOff)) ==> Valid()
    {
      if Awaits(MonitorsOff) { LockProofs.StepKeeps(View(), MonitorsOff); }
      if !monitorsActive {
        return;
      }
      monitorsActive := false;
      if backend.Tty? {
        ClearScreens();
        assert outputs == LockMachine.DeactivateMonitors(old(View())).outputs;
      }
    }

    method ActivateMonitors()
      modifies this`monitorsActive, this`outputs
      ensures View() == LockMachine.ActivateMonitors(old(View()))
      ensures old(Awaits(MonitorsOn)) ==> Valid()
    {
      if Awaits(MonitorsOn) { LockProofs.StepKeeps(View(), MonitorsOn); }
      if monitorsActive {
        return;
      }
      monitorsActive := true;
      QueueRedrawAll();
    }

    // Returning from another session.
    method Resume()
      modifies this`monitorsActive, this`outputs
      ensures View() == LockMachine.ResumeSession(old(View()))
      ensures old(Awaits(SessionResumed)) ==> Valid()
    {
      if Awaits(SessionResumed) { LockProofs.StepKeeps(View(), SessionResumed); }
      monitorsActive := true;
      QueueRedrawAll();
    }
  }
}
