/**
 Locking comes to an end: once each output that waits for a page flip has had its vblank, the redraw
 loop confirms the lock or gives it up, whatever the backend answers.
 */
module LockingEnds {
  import opened Options
  import opened LockMachine
  import opened LockProofs
  import opened LockTheorems

  predicate AwaitsVBlank(s: State, o: OutputId) {
    o in s.outputs && s.outputs[o].redraw.WaitingForVBlank?
  }

  // --- The vblanks ------------------------------------------------------------------------------

  ghost predicate AllVBlanks(vs: seq<Event>) {
    forall i :: 0 <= i < |vs| ==> vs[i].VBlank?
  }

  ghost predicate AllRedraws(rs: seq<Event>) {
    forall i :: 0 <= i < |rs| ==> rs[i].OutputRedrawn?
  }

  lemma VBlankEndsWaiting(s: State, p: OutputId, o: OutputId)
    requires !s.crashed
    ensures var s' := Step(s, VBlank(p));
            && SameLock(s, s') && s'.crashed == s.crashed && s'.outputs.Keys == s.outputs.Keys
            && (AwaitsVBlank(s', o) <==> AwaitsVBlank(s, o) && o != p)
  {
  }

  // After a vblank for each output that waits for one, none does, and the lock is as before.
  lemma {:induction false} VBlanksEndWaiting(s: State, vs: seq<Event>, o: OutputId)
    requires !s.crashed && AllVBlanks(vs)
    ensures var s' := Exec(s, vs);
            && s'.lock == s.lock && !s'.crashed && s'.outputs.Keys == s.outputs.Keys
            && (AwaitsVBlank(s', o) <==> AwaitsVBlank(s, o) && VBlank(o) !in vs)
    decreases vs
  {
    if vs != [] {
      VBlankEndsWaiting(s, vs[0].output, o);
      VBlanksEndWaiting(Step(s, vs[0]), vs[1..], o);
      assert vs == [vs[0]] + vs[1..];
    }
  }

  // --- The redraws ------------------------------------------------------------------------------

  // The lock is settled, or every output's redraw is either done or still to come without a vblank.
  ghost predicate Settling(s: State, l: LockId) {
    || s.lock == Locked(l)
    || s.lock == Unlocked
    || (s.lock == Locking(l) && forall o :: o in s.outputs ==> s.outputs[o].redraw != WaitingForVBlank(true))
  }

  lemma RenderAwaitsNoSecond(s: State, o: OutputId, outcome: RenderOutcome, animating: bool)
    requires TimerInv(s) && !s.crashed && CanHappen(s, OutputRedrawn(o, outcome, animating))
    ensures var s1 := RenderIfActive(s, o, outcome, animating);
            o in s1.outputs && AfterRender(s1, o, outcome).outputs[o].redraw != WaitingForVBlank(true)
  {
    RenderIsLocal(s, o, outcome, animating);
    RenderKeeps(s, o, outcome, animating);
  }

  lemma SettlingSettles(s: State, o: OutputId, l: LockId)
    requires o in s.outputs && Settling(s, l)
    ensures Settling(SettleLocking(s, o), l)
  {
    if s.lock.Locking? && s.outputs[o].lockRender == ShowsSession {
      assert SettleLocking(s, o).lock == Unlocked;
    }
  }

  lemma RedrawSettles(s: State, o: OutputId, outcome: RenderOutcome, animating: bool, l: LockId)
    requires TimerInv(s) && !s.crashed && CanHappen(s, OutputRedrawn(o, outcome, animating)) && Settling(s, l)
    ensures Settling(Redraw(s, o, outcome, animating), l)
  {
    RenderIsLocal(s, o, outcome, animating);
    RenderKeeps(s, o, outcome, animating);
    RenderAwaitsNoSecond(s, o, outcome, animating);
    var s2 := AfterRender(RenderIfActive(s, o, outcome, animating), o, outcome);
    assert s2.lock == s.lock && forall p :: p in s2.outputs && p != o ==> s2.outputs[p] == s.outputs[p];
    SettlingSettles(s2, o, l);
  }

  lemma {:induction false} RedrawsSettle(s: State, rs: seq<Event>, l: LockId)
    requires LockInv(s) && TimerInv(s) && !s.crashed && Settling(s, l) && IsRun(s, rs) && AllRedraws(rs)
    ensures LockInv(Exec(s, rs)) && TimerInv(Exec(s, rs)) && Settling(Exec(s, rs), l)
    decreases rs
  {
    if rs != [] {
      var e := rs[0];
      RedrawSettles(s, e.output, e.outcome, e.animating, l);
      RedrawSurvives(s, e.output, e.outcome, e.animating);
      StepKeeps(s, e);
      RedrawsSettle(Step(s, e), rs[1..], l);
    }
  }

  // While locking: let at least the outputs that wait for a vblank have theirs, and redraw until
  // nothing is queued. Then the lock is confirmed, or it has failed.
  lemma {:induction false} LockingEndsAfterVBlanks(s: State, vs: seq<Event>, rs: seq<Event>)
    requires LockInv(s) && TimerInv(s) && !s.crashed && s.lock.Locking?
    requires IsRun(s, vs) && AllVBlanks(vs) && forall o :: AwaitsVBlank(s, o) ==> VBlank(o) in vs
    requires IsRun(Exec(s, vs), rs) && AllRedraws(rs) && QueuedOutputs(Exec(Exec(s, vs), rs)) == {}
    ensures Exec(Exec(s, vs), rs).lock == Locked(s.lock.locker) || Exec(Exec(s, vs), rs).lock == Unlocked
  {
    var l, s1 := s.lock.locker, Exec(s, vs);
    RunKeeps(s, vs);
    VBlanksEndWaiting(s, vs, 0);
    forall o | o in s1.outputs ensures s1.outputs[o].redraw != WaitingForVBlank(true) {
      VBlanksEndWaiting(s, vs, o);
      assert !AwaitsVBlank(s1, o);
    }
    RedrawsSettle(s1, rs, l);
    var s2 := Exec(s1, rs);
    if s2.lock.Locking? {
      LockingWaitsOnlyForVBlanks(s2);
    }
  }
}
