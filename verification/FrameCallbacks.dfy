/**
 Frame-callback throttling: `should_send` lets a surface have one frame callback per refresh
 cycle of its primary output, told apart by that output's wrapping 32-bit sequence number.
 */
module FrameCallbacks {
  import opened Arithmetic
  import opened Options
  import opened LockMachine
  import opened LockProofs
  import opened LockTheorems

  // When the surface was last sent a callback: on which output, at which sequence number.
  type LastSent = Option<(OutputId, nat)>

  // Whether to send, and when the surface was then last sent one.
  function Decide(last: LastSent, primary: Option<OutputId>, output: OutputId, sequence: nat): (bool, LastSent) {
    if primary != Some(output) || last == Some((output, sequence)) then (false, last)
    else (true, Some((output, sequence)))
  }

  class SurfaceThrottle {
    var lastSentAt: LastSent

    constructor ()
      ensures lastSentAt == None
    {
      lastSentAt := None;
    }

    method ShouldSend(primary: Option<OutputId>, output: OutputId, sequence: nat) returns (send: bool)
      modifies this
      ensures (send, lastSentAt) == Decide(old(lastSentAt), primary, output, sequence)
    {
      if primary != Some(output) {
        return false;
      }
      send := true;
      if lastSentAt.Some? {
        var (lastOutput, lastSequence) := lastSentAt.value;
        if lastOutput == output && lastSequence == sequence {
          send := false;
        }
      }
      if send {
        lastSentAt := Some((output, sequence));
      }
    }
  }

  // --- One surface along a run of the compositor --------------------------------------------------

  datatype Tick = Machine(event: Event) | SendCallbacks(output: OutputId)

  // The compositor, the surface's throttling state, the callbacks it got and the refresh cycles of
  // its primary output.
  datatype Track = Track(state: State, last: LastSent, sent: nat, cycles: nat)

  // The refresh cycle of `p` moves on: a frame is handed over, or its estimated vblank passes.
  predicate IsRefresh(s: State, e: Event, p: OutputId) {
    || (e.OutputRedrawn? && e.output == p && s.monitorsActive && (e.outcome.Submitted? || !s.backend.Tty?))
    || (e.TimerFires? && e.token in s.timers && s.timers[e.token] == EstimatedVBlank(p))
  }

  function Advance(t: Track, tick: Tick, p: OutputId): Track {
    match tick
    case Machine(e) =>
      t.(state := Step(t.state, e), cycles := t.cycles + if IsRefresh(t.state, e, p) then 1 else 0)
    case SendCallbacks(o) =>
      if o !in t.state.outputs then t
      else
        var (send, last) := Decide(t.last, Some(p), o, t.state.outputs[o].callbackSequence);
        t.(last := last, sent := t.sent + if send then 1 else 0)
  }

  function Follow(t: Track, ticks: seq<Tick>, p: OutputId): Track
    decreases ticks
  {
    if ticks == [] then t else Follow(Advance(t, ticks[0], p), ticks[1..], p)
  }

  // The sequence number of an output moves only when its refresh cycle does.
  lemma SequenceMovesOnlyOnRefresh(s: State, e: Event, p: OutputId)
    requires p in s.outputs && !(e.OutputRemoved? && e.output == p) && !IsRefresh(s, e, p)
    ensures p in Step(s, e).outputs && Step(s, e).outputs[p].callbackSequence == s.outputs[p].callbackSequence
  {
    if s.crashed { return; }
    match e
    case OutputRedrawn(o, outcome, animating) =>
      if o in s.outputs && s.outputs[o].redraw.IsQueued() {
        RenderIsLocal(s, o, outcome, animating);
        var s2 := AfterRender(RenderIfActive(s, o, outcome, animating), o, outcome);
        assert p in s2.outputs && s2.outputs[p].callbackSequence == s.outputs[p].callbackSequence;
        SettleLockingOnlyQueues(s2, o);
      }
    case OutputRemoved(o, moved, uiClosed, mapped) =>
      if o in s.outputs {
        var s1 := DropOutput(QueueRedraws(s, moved), o);
        assert s1.outputs[p].callbackSequence == s.outputs[p].callbackSequence;
        ContinueToLockingOnlyQueues(s1, mapped);
      }
    case OutputAdded(o, moved) =>
    case VBlank(o) =>
    case MonitorsOff =>
    case TimerFires(t) =>
      if IsQuiet(s, e) { QuietStepOnlyQueues(s, e); }
    case _ => QuietStepOnlyQueues(s, e);
  }

  // And it does move then, so that the next callback is not held back.
  lemma RefreshMovesSequence(s: State, e: Event, p: OutputId)
    requires TimerInv(s) && LiveTimersStored(s) && !s.crashed && CanHappen(s, e) && IsRefresh(s, e, p)
    ensures p in s.outputs && p in Step(s, e).outputs
    ensures Step(s, e).outputs[p].callbackSequence == (s.outputs[p].callbackSequence + 1) % SEQUENCE_MODULUS
    ensures Step(s, e).outputs[p].callbackSequence != s.outputs[p].callbackSequence
  {
    if e.OutputRedrawn? {
      RenderMovesSequence(s, p, e.outcome, e.animating);
      RenderIsLocal(s, p, e.outcome, e.animating);
      RenderKeeps(s, p, e.outcome, e.animating);
      SettleLockingOnlyQueues(AfterRender(RenderIfActive(s, p, e.outcome, e.animating), p, e.outcome), p);
    }
  }

  lemma RenderMovesSequence(s: State, p: OutputId, outcome: RenderOutcome, animating: bool)
    requires p in s.outputs && s.outputs[p].redraw.IsQueued() && s.monitorsActive
    requires outcome.Submitted? || !s.backend.Tty?
    ensures var s1 := RenderIfActive(s, p, outcome, animating);
            s1.crashed || (p in s1.outputs && s1.outputs[p].callbackSequence == Bump(s.outputs[p].callbackSequence))
  {
  }

  ghost predicate Throttled(t: Track, p: OutputId) {
    && p in t.state.outputs
    && t.sent <= 1 + t.cycles
    && (t.sent == 1 + t.cycles ==> t.last == Some((p, t.state.outputs[p].callbackSequence)))
  }

  // Whatever the compositor does and whenever it sends callbacks, a new surface whose primary output
  // stays `p` gets at most one callback more than `p` has refresh cycles.
  lemma {:induction false} OneCallbackPerCycle(s: State, ticks: seq<Tick>, p: OutputId)
    requires p in s.outputs
    requires forall i :: 0 <= i < |ticks| ==>
               !(ticks[i].Machine? && ticks[i].event.OutputRemoved? && ticks[i].event.output == p)
    ensures var t := Follow(Track(s, None, 0, 0), ticks, p); t.sent <= 1 + t.cycles
  {
    StaysThrottled(Track(s, None, 0, 0), ticks, p);
  }

  lemma {:induction false} StaysThrottled(t: Track, ticks: seq<Tick>, p: OutputId)
    requires Throttled(t, p)
    requires forall i :: 0 <= i < |ticks| ==>
               !(ticks[i].Machine? && ticks[i].event.OutputRemoved? && ticks[i].event.output == p)
    ensures Throttled(Follow(t, ticks, p), p)
    decreases ticks
  {
    if ticks != [] {
      var tick := ticks[0];
      if tick.Machine? {
        if IsRefresh(t.state, tick.event, p) {
          RefreshKeepsOutput(t.state, tick.event, p);
        } else {
          SequenceMovesOnlyOnRefresh(t.state, tick.event, p);
        }
      }
      assert forall i :: 0 <= i < |ticks| - 1 ==> ticks[1..][i] == ticks[i + 1];
      StaysThrottled(Advance(t, tick, p), ticks[1..], p);
    }
  }

  lemma RefreshKeepsOutput(s: State, e: Event, p: OutputId)
    requires p in s.outputs && IsRefresh(s, e, p)
    ensures p in Step(s, e).outputs
  {
    if e.OutputRedrawn? {
      RenderIsLocal(s, p, e.outcome, e.animating);
    }
  }

  // --- Which callbacks are accepted ---------------------------------------------------------------

  function Refreshes(s: State, es: seq<Event>, p: OutputId): nat
    decreases es
  {
    if es == [] then 0 else (if IsRefresh(s, es[0], p) then 1 else 0) + Refreshes(Step(s, es[0]), es[1..], p)
  }

  lemma ModIs(a: nat, m: nat, q: nat, r: nat)
    requires m > 0 && r < m && a == q * m + r
    ensures a % m == r
  {
    QuotientIs(a, m, q);
    assert a == (a / m) * m + a % m;
  }

  lemma WholeTurn(k: nat, m: nat)
    requires m > 0
    ensures (m + k) % m == k % m
  {
    var q, r := k / m, k % m;
    assert k == q * m + r;
    assert m + k == (q + 1) * m + r;
    ModIs(m + k, m, q + 1, r);
  }

  lemma OneMore(a: nat, k: nat, m: nat)
    requires m > 0 && a < m
    ensures ((a + 1) % m + k) % m == (a + (k + 1)) % m
  {
    if a + 1 == m {
      ModIs(a + 1, m, 1, 0);
      WholeTurn(k, m);
    } else {
      ModIs(a + 1, m, 0, a + 1);
    }
  }

  // One event moves the sequence number by one exactly on a refresh.
  lemma SequenceStep(s: State, e: Event, p: OutputId)
    requires TimerInv(s) && LiveTimersStored(s) && !s.crashed && CanHappen(s, e)
    requires p in s.outputs && s.outputs[p].callbackSequence < SEQUENCE_MODULUS
    requires !(e.OutputRemoved? && e.output == p)
    ensures p in Step(s, e).outputs
    ensures Step(s, e).outputs[p].callbackSequence ==
            if IsRefresh(s, e, p) then (s.outputs[p].callbackSequence + 1) % SEQUENCE_MODULUS
            else s.outputs[p].callbackSequence
  {
    if IsRefresh(s, e, p) {
      RefreshMovesSequence(s, e, p);
    } else {
      SequenceMovesOnlyOnRefresh(s, e, p);
    }
  }

  // The sequence number counts the refresh cycles, up to its wrap-around.
  lemma {:induction false} SequenceCounts(s: State, es: seq<Event>, p: OutputId)
    requires Sound(s, p) && IsRun(s, es) && WithoutRogues(s, es) && NeverRemoved(es, p)
    ensures p in Exec(s, es).outputs
    ensures Exec(s, es).outputs[p].callbackSequence ==
            Wrapped(s.outputs[p].callbackSequence, Refreshes(s, es, p), SEQUENCE_MODULUS)
    decreases es
  {
    if es == [] {
      ModIs(s.outputs[p].callbackSequence, SEQUENCE_MODULUS, 0, s.outputs[p].callbackSequence);
    } else {
      var s1 := StillSound(s, es[0], p);
      NeverRemovedLater(es, p);
      SequenceCounts(s1, es[1..], p);
      CountsOn(s, s1, es, p, s.outputs[p].callbackSequence, SEQUENCE_MODULUS);
    }
  }

  // The invariants of a run without rogue vblanks, and a sequence number in range.
  ghost predicate Sound(s: State, p: OutputId) {
    && LockInv(s) && TimerInv(s) && LiveTimersStored(s) && !s.crashed
    && p in s.outputs && s.outputs[p].callbackSequence < SEQUENCE_MODULUS
  }

  lemma NewOutputIsSound(backend: Backend, o: OutputId)
    ensures Sound(Step(Init(backend), OutputAdded(o, {})), o)
  {
  }

  ghost predicate NeverRemoved(es: seq<Event>, p: OutputId) {
    forall i :: 0 <= i < |es| ==> !(es[i].OutputRemoved? && es[i].output == p)
  }

  lemma NeverRemovedLater(es: seq<Event>, p: OutputId)
    requires es != [] && NeverRemoved(es, p)
    ensures NeverRemoved(es[1..], p) && !(es[0].OutputRemoved? && es[0].output == p)
  {
    assert forall i :: 0 <= i < |es| - 1 ==> es[1..][i] == es[i + 1];
  }

  // A counter that starts again from zero at m, after k more steps.
  function Wrapped(a: nat, k: nat, m: nat): nat
    requires m > 0
  {
    (a + k) % m
  }

  lemma StillSound(s: State, e: Event, p: OutputId) returns (s1: State)
    requires Sound(s, p) && CanHappen(s, e) && !IsRogue(s, e) && !(e.OutputRemoved? && e.output == p)
    ensures s1 == Step(s, e) && Sound(s1, p)
    ensures s1.outputs[p].callbackSequence ==
            if IsRefresh(s, e, p) then (s.outputs[p].callbackSequence + 1) % SEQUENCE_MODULUS
            else s.outputs[p].callbackSequence
  {
    s1 := Step(s, e);
    SequenceStep(s, e, p);
    StepKeeps(s, e);
    LiveTimersStoredStep(s, e);
  }

  lemma {:induction false} CountsOn(s: State, s1: State, es: seq<Event>, p: OutputId, a: nat, m: nat)
    requires es != [] && s1 == Step(s, es[0]) && p in s1.outputs && m > 0 && a < m
    requires s1.outputs[p].callbackSequence == if IsRefresh(s, es[0], p) then (a + 1) % m else a
    requires p in Exec(s1, es[1..]).outputs
    requires Exec(s1, es[1..]).outputs[p].callbackSequence ==
             Wrapped(s1.outputs[p].callbackSequence, Refreshes(s1, es[1..], p), m)
    ensures p in Exec(s, es).outputs && Exec(s, es).outputs[p].callbackSequence == Wrapped(a, Refreshes(s, es, p), m)
  {
    Counted(a, IsRefresh(s, es[0], p), s1.outputs[p].callbackSequence, Refreshes(s1, es[1..], p),
            Exec(s1, es[1..]).outputs[p].callbackSequence, m);
  }

  lemma Counted(a: nat, one: bool, b: nat, k: nat, end: nat, m: nat)
    requires m > 0 && a < m && b == (if one then (a + 1) % m else a) && end == (b + k) % m
    ensures end == (a + ((if one then 1 else 0) + k)) % m
  {
    OneMore(a, k, m);
  }

  lemma SameAfter(a: nat, k: nat, m: nat)
    requires m > 0 && a < m
    ensures (a + k) % m == a <==> k % m == 0
  {
    var q, r := k / m, k % m;
    assert k == q * m + r;
    if a + r < m {
      ModIs(a + k, m, q, a + r);
    } else {
      assert a + k == (q + 1) * m + (a + r - m);
      ModIs(a + k, m, q + 1, a + r - m);
    }
  }

  // A surface that was sent a callback on its primary output is sent the next one exactly if the output
  // has had a refresh cycle since, short of a whole turn of the sequence number.
  lemma {:induction false} NextCallbackExactlyWhen(s: State, es: seq<Event>, p: OutputId)
    requires Sound(s, p) && IsRun(s, es) && WithoutRogues(s, es) && NeverRemoved(es, p)
    ensures p in Exec(s, es).outputs
    ensures Decide(Some((p, s.outputs[p].callbackSequence)), Some(p), p, Exec(s, es).outputs[p].callbackSequence).0
            <==> Refreshes(s, es, p) % SEQUENCE_MODULUS != 0
  {
    SequenceCounts(s, es, p);
    SameAfter(s.outputs[p].callbackSequence, Refreshes(s, es, p), SEQUENCE_MODULUS);
  }

  // A surface that was sent none, or one on another output, is sent one on its primary output, and on
  // no other.
  lemma FirstCallback(last: LastSent, primary: OutputId, output: OutputId, sequence: nat)
    requires last.Some? ==> last.value.0 != primary
    ensures Decide(last, Some(primary), output, sequence) ==
            if output == primary then (true, Some((output, sequence))) else (false, last)
  {
  }
}
