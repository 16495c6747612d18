/**
 Frames are paced by the display. On a TTY an output that was handed a frame waits for its vblank
 before the next one, and an output that had nothing new to show waits for a timer.
 */
module Pacing {
  import opened Options
  import opened LockMachine
  import opened LockProofs
  import opened LockTheorems
  import opened LockingEnds
  import opened RedrawRequests

  // A frame of `o` is handed to the display.
  predicate Submits(s: State, e: Event, o: OutputId) {
    e.OutputRedrawn? && e.output == o && e.outcome.Submitted? && s.monitorsActive
  }

  // A vblank of `o` that nothing waits for.
  predicate Unexpected(s: State, e: Event, o: OutputId) {
    e == VBlank(o) && !AwaitsVBlank(s, o)
  }

  function One(b: bool): nat {
    if b then 1 else 0
  }

  function Submissions(s: State, es: seq<Event>, o: OutputId): nat
    decreases es
  {
    if es == [] then 0 else One(Submits(s, es[0], o)) + Submissions(Step(s, es[0]), es[1..], o)
  }

  function UnexpectedVBlanks(s: State, es: seq<Event>, o: OutputId): nat
    decreases es
  {
    if es == [] then 0 else One(Unexpected(s, es[0], o)) + UnexpectedVBlanks(Step(s, es[0]), es[1..], o)
  }

  function VBlanks(es: seq<Event>, o: OutputId): nat {
    if es == [] then 0 else One(es[0] == VBlank(o)) + VBlanks(es[1..], o)
  }

  ghost predicate Removes(e: Event, o: OutputId) {
    e.OutputRemoved? && e.output == o
  }

  // --- One event --------------------------------------------------------------------------------

  lemma QueueingKeepsAwaiting(s: State, s': State, o: OutputId)
    requires OnlyQueues(s, s') && o in s.outputs
    ensures AwaitsVBlank(s', o) <==> AwaitsVBlank(s, o)
  {
  }

  // A live timer will end the wait of `o`.
  predicate HoldsTimer(s: State, o: OutputId) {
    && o in s.outputs && s.outputs[o].redraw.Timer().Some?
    && s.outputs[o].redraw.Timer().value in s.timers
    && s.timers[s.outputs[o].redraw.Timer().value] == EstimatedVBlank(o)
  }

  lemma StoredMeansHeld(s: State, o: OutputId)
    requires TimerInv(s) && o in s.outputs
    ensures HoldsTimer(s, o) <==> s.outputs[o].redraw.Timer().Some?
  {
  }

  // The redraw state that rendering leaves behind, before the lock is looked at.
  lemma RenderLeaves(s: State, o: OutputId, outcome: RenderOutcome, animating: bool)
    requires s.backend.Tty? && !s.crashed && o in s.outputs && s.outputs[o].redraw.IsQueued()
    ensures var s1 := RenderIfActive(s, o, outcome, animating);
            o in s1.outputs &&
            var before, r := s.outputs[o].redraw, AfterRender(s1, o, outcome).outputs[o].redraw;
            if !s.monitorsActive || outcome.NotAttempted? then r == before.Skipped()
            else if outcome.Submitted? then r == WaitingForVBlank(false)
            else r.WaitingForEstimatedVBlank?
  {
    if s.monitorsActive {
      var s1 := s.(outputs := s.outputs[o := s.outputs[o].(animating := animating)]);
      match outcome
      case NotAttempted =>
      case Submitted =>
      case NoDamage =>
      case Failed =>
    }
  }

  lemma QueueingKeepsTimer(s: State, s': State, o: OutputId)
    requires OnlyQueues(s, s') && o in s.outputs
    ensures s'.outputs[o].redraw.Timer() == s.outputs[o].redraw.Timer()
  {
  }

  // What a redraw leaves an output waiting for: a vblank exactly after a submission, and a timer after
  // a render that brought nothing to the display.
  lemma RedrawLeavesWaiting(s: State, o: OutputId, outcome: RenderOutcome, animating: bool)
    requires s.backend.Tty? && TimerInv(s) && !s.crashed && CanHappen(s, OutputRedrawn(o, outcome, animating))
    ensures var s' := Redraw(s, o, outcome, animating);
            && o in s'.outputs
            && (AwaitsVBlank(s', o) <==> outcome.Submitted? && s.monitorsActive)
            && (s.monitorsActive && (outcome.NoDamage? || outcome.Failed?) ==> HoldsTimer(s', o))
            && (!s.monitorsActive || outcome.NotAttempted? ==> (HoldsTimer(s', o) <==> HoldsTimer(s, o)))
  {
    RenderIsLocal(s, o, outcome, animating);
    RenderKeeps(s, o, outcome, animating);
    var s1 := RenderIfActive(s, o, outcome, animating);
    AfterRenderKeeps(s1, o, outcome);
    RenderLeaves(s, o, outcome, animating);
    SettledLeaves(s, AfterRender(s1, o, outcome), o);
  }

  lemma SettledLeaves(s: State, s2: State, o: OutputId)
    requires TimerInv(s) && TimerInv(s2) && o in s.outputs && o in s2.outputs
    ensures var s' := SettleLocking(s2, o);
            && o in s'.outputs
            && (AwaitsVBlank(s', o) <==> AwaitsVBlank(s2, o))
            && (HoldsTimer(s', o) <==> s2.outputs[o].redraw.Timer().Some?)
            && (HoldsTimer(s, o) <==> s.outputs[o].redraw.Timer().Some?)
  {
    var s' := SettleLocking(s2, o);
    SettleLockingOnlyQueues(s2, o);
    SettleLockingLeavesTimers(s2, o);
    QueueingKeepsAwaiting(s2, s', o);
    QueueingKeepsTimer(s2, s', o);
    StoredMeansHeld(s', o);
    StoredMeansHeld(s, o);
  }

  lemma SettleLockingLeavesTimers(s: State, o: OutputId)
    requires o in s.outputs && TimerInv(s)
    ensures TimerInv(SettleLocking(s, o))
  {
    if s.lock.Locking? && s.outputs[o].lockRender == ShowsSession {
      UnlockKeepsTimers(s);
    }
  }

  lemma UnlockKeepsTimers(s: State)
    requires TimerInv(s)
    ensures TimerInv(Unlock(s))
  {
  }

  lemma OtherRedrawKeepsAwaiting(s: State, p: OutputId, outcome: RenderOutcome, animating: bool, o: OutputId)
    requires TimerInv(s) && !s.crashed && CanHappen(s, OutputRedrawn(p, outcome, animating))
    requires o in s.outputs && p != o
    ensures var s' := Redraw(s, p, outcome, animating);
            o in s'.outputs && (AwaitsVBlank(s', o) <==> AwaitsVBlank(s, o))
  {
    RenderIsLocal(s, p, outcome, animating);
    RenderKeeps(s, p, outcome, animating);
    var s2 := AfterRender(RenderIfActive(s, p, outcome, animating), p, outcome);
    assert s2.outputs[o] == s.outputs[o];
    SettleLockingOnlyQueues(s2, p);
    QueueingKeepsAwaiting(s2, SettleLocking(s2, p), o);
  }

  lemma RemovalKeepsAwaiting(s: State, p: OutputId, moved: set<OutputId>, uiClosed: bool, mapped: set<SurfaceId>,
                             o: OutputId)
    requires o in s.outputs && p in s.outputs && p != o
    ensures var s' := RemoveOutput(s, p, moved, uiClosed, mapped);
            o in s'.outputs && (AwaitsVBlank(s', o) <==> AwaitsVBlank(s, o))
  {
    var s1 := DropOutput(QueueRedraws(s, moved), p);
    DropKeepsAwaiting(s, p, moved, o);
    ContinueToLockingOnlyQueues(s1, mapped);
    var s2 := RecheckLock(s1, mapped);
    QueueingKeepsAwaiting(s1, s2, o);
    QueueingOnlyQueues(s2, s2.outputs.Keys);
    QueueingKeepsAwaiting(s2, QueueRedrawAll(s2), o);
  }

  lemma DropKeepsAwaiting(s: State, p: OutputId, moved: set<OutputId>, o: OutputId)
    requires o in s.outputs && p in s.outputs && p != o
    ensures var s1 := DropOutput(QueueRedraws(s, moved), p);
            o in s1.outputs && (AwaitsVBlank(s1, o) <==> AwaitsVBlank(s, o))
  {
  }

  // An output awaits a vblank from a submission to the next vblank; nothing else starts or ends that.
  lemma AwaitingStep(s: State, e: Event, o: OutputId)
    requires s.backend.Tty? && TimerInv(s) && !s.crashed && CanHappen(s, e) && !Step(s, e).crashed
    requires o in s.outputs && !Removes(e, o)
    ensures o in Step(s, e).outputs
    ensures AwaitsVBlank(Step(s, e), o) <==> Submits(s, e, o) || (AwaitsVBlank(s, o) && e != VBlank(o))
    ensures Submits(s, e, o) ==> !AwaitsVBlank(s, o)
  {
    match e
    case OutputRedrawn(p, outcome, animating) =>
      if p == o {
        RedrawLeavesWaiting(s, o, outcome, animating);
      } else {
        OtherRedrawKeepsAwaiting(s, p, outcome, animating, o);
      }
    case OutputRemoved(p, moved, uiClosed, mapped) => RemovalKeepsAwaiting(s, p, moved, uiClosed, mapped, o);
    case OutputAdded(p, moved) =>
    case VBlank(p) => VBlankEndsWaiting(s, p, o);
    case MonitorsOff =>
    case TimerFires(t) =>
      if IsQuiet(s, e) {
        QuietStepOnlyQueues(s, e);
        QueueingKeepsAwaiting(s, Step(s, e), o);
      }
    case _ =>
      QuietStepOnlyQueues(s, e);
      QueueingKeepsAwaiting(s, Step(s, e), o);
  }

  // --- Runs -------------------------------------------------------------------------------------

  ghost predicate Stays(es: seq<Event>, o: OutputId) {
    forall i :: 0 <= i < |es| ==> !Removes(es[i], o)
  }

  lemma BackendStaysTty(s: State, e: Event)
    requires s.backend.Tty?
    ensures Step(s, e).backend.Tty?
  {
    BackendStays(s, e);
  }

  // Submissions and vblanks of an output balance: each expected vblank answers one submission.
  lemma {:induction false} FramesBalance(s: State, es: seq<Event>, o: OutputId)
    requires s.backend.Tty? && LockInv(s) && TimerInv(s) && o in s.outputs
    requires IsRun(s, es) && Stays(es, o) && !Exec(s, es).crashed
    ensures o in Exec(s, es).outputs
    ensures Submissions(s, es, o) + One(AwaitsVBlank(s, o)) + UnexpectedVBlanks(s, es, o) ==
            VBlanks(es, o) + One(AwaitsVBlank(Exec(s, es), o))
    decreases es
  {
    if es != [] {
      CrashedIsFinal(s, es);
      CrashedIsFinal(Step(s, es[0]), es[1..]);
      AwaitingStep(s, es[0], o);
      StepKeeps(s, es[0]);
      BackendStaysTty(s, es[0]);
      assert forall i :: 0 <= i < |es| - 1 ==> es[1..][i] == es[i + 1];
      FramesBalance(Step(s, es[0]), es[1..], o);
    }
  }

  // So an output is never handed a frame before the page flip of the one before: its submissions are
  // at most one more than its vblanks.
  lemma {:induction false} OneFramePerVBlank(s: State, es: seq<Event>, o: OutputId)
    requires s.backend.Tty? && LockInv(s) && TimerInv(s) && o in s.outputs
    requires IsRun(s, es) && Stays(es, o) && !Exec(s, es).crashed
    ensures Submissions(s, es, o) <= VBlanks(es, o) + 1
    ensures AwaitsVBlank(s, o) ==> Submissions(s, es, o) <= VBlanks(es, o)
  {
    FramesBalance(s, es, o);
  }

  // After a submission, an output awaits its vblank until one comes, and is not redrawn meanwhile.
  lemma {:induction false} AwaitsUntilVBlank(s: State, es: seq<Event>, o: OutputId)
    requires s.backend.Tty? && LockInv(s) && TimerInv(s) && AwaitsVBlank(s, o)
    requires IsRun(s, es) && Stays(es, o) && !Exec(s, es).crashed && VBlank(o) !in es
    ensures AwaitsVBlank(Exec(s, es), o)
    ensures forall i :: 0 <= i < |es| ==> !(es[i].OutputRedrawn? && es[i].output == o)
    decreases es
  {
    if es != [] {
      CrashedIsFinal(s, es);
      CrashedIsFinal(Step(s, es[0]), es[1..]);
      AwaitingStep(s, es[0], o);
      StepKeeps(s, es[0]);
      BackendStaysTty(s, es[0]);
      assert forall i :: 0 <= i < |es| - 1 ==> es[1..][i] == es[i + 1];
      AwaitsUntilVBlank(Step(s, es[0]), es[1..], o);
    }
  }

  // --- Waiting for a timer ----------------------------------------------------------------------

  // The timer of `o` fires, a vblank comes in its place, or a frame is submitted instead.
  predicate EndsTimer(s: State, e: Event, o: OutputId) {
    EndsWait(s, e, o) || Submits(s, e, o)
  }

  ghost predicate TimerGoesOn(s: State, es: seq<Event>, o: OutputId)
    decreases es
  {
    es == [] || (!EndsTimer(s, es[0], o) && TimerGoesOn(Step(s, es[0]), es[1..], o))
  }

  lemma TimerStep(s: State, e: Event, o: OutputId)
    requires s.backend.Tty? && LockInv(s) && TimerInv(s) && !s.crashed && CanHappen(s, e)
    requires HoldsTimer(s, o) && !EndsTimer(s, e, o) && !Removes(e, o)
    ensures HoldsTimer(Step(s, e), o)
  {
    if e.OutputRedrawn? && e.output == o {
      RedrawLeavesWaiting(s, o, e.outcome, e.animating);
    } else {
      StepMarks(s, e, o);
      StepKeeps(s, e);
      StoredMeansHeld(Step(s, e), o);
    }
  }

  // After a render that brought nothing to the display, an output holds a live timer until it fires, a
  // vblank comes, a frame is submitted or the output goes: its frame callbacks cannot be forgotten.
  lemma {:induction false} HoldsTimerUntilItFires(s: State, es: seq<Event>, o: OutputId)
    requires s.backend.Tty? && LockInv(s) && TimerInv(s) && HoldsTimer(s, o)
    requires IsRun(s, es) && Stays(es, o) && TimerGoesOn(s, es, o) && !Exec(s, es).crashed
    ensures HoldsTimer(Exec(s, es), o)
    decreases es
  {
    if es != [] {
      CrashedIsFinal(s, es);
      TimerStep(s, es[0], o);
      StepKeeps(s, es[0]);
      BackendStaysTty(s, es[0]);
      assert forall i :: 0 <= i < |es| - 1 ==> es[1..][i] == es[i + 1];
      HoldsTimerUntilItFires(Step(s, es[0]), es[1..], o);
    }
  }
}
