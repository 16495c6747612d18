/**
 Which devices there are after start-up and after each single udev event.
 */
module GpuEvents {
  import opened Options
  import opened GpuMachine
  import opened GpuTheorems

  // After start-up in an active session the devices are those that come up with the primary node
  // first; an inactive session opens nothing.
  lemma InitExactly(s: State, config: set<Node>, adding: seq<Node>, open: Openings)
    requires IsFresh(s) && Enumerates(adding, s.listed)
    ensures var t, ignored := Init(s, config, adding, open), ComputeIgnored(s.seat, config);
            && (!s.active ==> t == s)
            && (s.active ==>
                  && t.ignored == ignored
                  && (forall n :: n in t.devices <==> Ends(s, ignored, PrimaryFirst(s.seat, adding), open, n))
                  && (forall n :: n in t.devices ==> t.devices[n] == open(n).render))
  {
    if s.active {
      var ignored := ComputeIgnored(s.seat, config);
      var mid := s.(ignored := ignored);
      PrimaryFirstIsDistinct(s.seat, adding);
      assert s.listed - s.devices.Keys == s.listed;
      AddAllKeeps(mid, PrimaryFirst(s.seat, adding), s.listed, open);
      ReducedAndAdded(s, mid, ignored, PrimaryFirst(s.seat, adding), open);
    }
  }

  // The devices after adding a node alone: it needs to be considered and to open, with a renderer that
  // is or comes up, or without one beside the primary device.
  ghost function WithNode(s: State, n: Node, o: Opening): map<Node, Option<Node>> {
    if Joins(s, n, _ => o, s.seat.primaryNode in s.devices, s.dmabufGlobal) then s.devices[n := o.render] else s.devices
  }

  lemma AddedAlone(s: State, n: Node, o: Opening)
    requires Inv(s) && !s.crashed && n !in s.devices
    ensures DeviceAdded(s, n, o).devices == WithNode(s, n, o)
  {
    AddOneExactly(s, s, n, _ => o);
  }

  // Announcing a node of an active session adds it if it can, with the ignored nodes recomputed. The
  // list follows udev in any case.
  lemma AddedEventExactly(s: State, n: Node, config: set<Node>, o: Opening)
    requires Good(s) && n !in s.listed
    ensures var t := Step(s, Added(n, config, o));
            && t.listed == s.listed + {n} && t.active == s.active
            && t.ignored == (if s.active then ComputeIgnored(s.seat, config) else s.ignored)
            && t.devices == if s.active then WithNode(s.(ignored := t.ignored), n, o) else s.devices
  {
    if s.active {
      var s1 := s.(listed := s.listed + {n}, ignored := ComputeIgnored(s.seat, config));
      assert n !in s.devices.Keys;
      SameDevicesSameUses(s, s1);
      AddedAlone(s1, n, o);
    }
  }

  // A change of a node of an active session adds it only if it is no device and its path is known.
  lemma ChangedEventExactly(s: State, n: Node, hasPath: bool, o: Opening)
    requires Good(s)
    ensures var t := Step(s, Changed(n, hasPath, o));
            && t.listed == s.listed && t.active == s.active && t.ignored == s.ignored
            && t.devices == if s.active && hasPath && n !in s.devices then WithNode(s, n, o) else s.devices
  {
    if n !in s.devices { AddedAlone(s, n, o); }
  }

  // Removing a node takes it off the list, and in an active session from the devices, with all others
  // left as they are.
  lemma RemovedEventExactly(s: State, n: Node)
    requires Good(s)
    ensures var t := Step(s, Removed(n));
            && t.listed == s.listed - {n} && t.active == s.active && t.ignored == s.ignored
            && t.devices == if s.active then s.devices - {n} else s.devices
  {
    var s1 := s.(listed := s.listed - {n});
    SameDevicesSameUses(s, s1);
    RemovedKeeps(s1, n);
  }

  // --- The session over runs ----------------------------------------------------------------------

  function InForeground(active: bool, es: seq<Event>): bool
    decreases es
  {
    if es == [] then active
    else InForeground(if es[0].Pause? then false else if es[0].Activate? then true else active, es[1..])
  }

  function Announced(listed: set<Node>, es: seq<Event>): set<Node>
    decreases es
  {
    if es == [] then listed
    else
      var e := es[0];
      Announced(if e.Added? then listed + {e.node} else if e.Removed? then listed - {e.node} else listed, es[1..])
  }

  lemma {:induction false} RemovingLeavesTheSession(s: State, order: seq<Node>, which: set<Node>)
    ensures var t := RemoveAll(s, order, which); t.active == s.active && t.listed == s.listed
    decreases order
  {
    if order != [] { RemovingLeavesTheSession(s, order[..|order| - 1], which); }
  }

  lemma {:induction false} AddingLeavesTheSession(s: State, order: seq<Node>, which: set<Node>, open: Openings)
    ensures var t := AddAll(s, order, which, open); t.active == s.active && t.listed == s.listed
    decreases order
  {
    if order != [] { AddingLeavesTheSession(s, order[..|order| - 1], which, open); }
  }

  lemma ActivationInTheSession(s: State, config: set<Node>, removing: seq<Node>, adding: seq<Node>, open: Openings)
    ensures var t := ActivateSession(s, config, removing, adding, open); t.active && t.listed == s.listed
  {
    var s1 := s.(active := true, ignored := ComputeIgnored(s.seat, config));
    RemovingLeavesTheSession(s1, removing, Gone(s1));
    var s3 := RefreshAll(RemoveAll(s1, removing, Gone(s1)), Remained(s1));
    AddingLeavesTheSession(s3, PrimaryFirst(s.seat, adding), s1.listed - s1.devices.Keys, open);
  }

  lemma ReconfigurationInTheSession(s: State, config: set<Node>, removing: seq<Node>, adding: seq<Node>,
                                    open: Openings)
    ensures var t := UpdateIgnored(s, config, removing, adding, open); t.active == s.active && t.listed == s.listed
    ensures !s.active ==> UpdateIgnored(s, config, removing, adding, open) == s
  {
    var s1 := s.(ignored := ComputeIgnored(s.seat, config));
    RemovingLeavesTheSession(s1, removing, Gone(s1));
    var s2 := RemoveAll(s1, removing, Gone(s1));
    AddingLeavesTheSession(s2, adding, s1.listed - Gone(s1) - s2.devices.Keys, open);
  }

  lemma SessionStep(s: State, e: Event)
    requires Good(s)
    ensures Step(s, e).active == InForeground(s.active, [e])
    ensures Step(s, e).listed == Announced(s.listed, [e])
  {
    assert [e][1..] == [];
    match e
    case Added(n, config, o) =>
    case Changed(n, hasPath, o) =>
    case Removed(n) => RemovedEventExactly(s, n);
    case Pause =>
    case Activate(config, removing, adding, open) => ActivationInTheSession(s, config, removing, adding, open);
    case Reconfigure(config, removing, adding, open) =>
      ReconfigurationInTheSession(s, config, removing, adding, open);
  }

  // After any run the session is active as last switched, and the list holds the nodes announced and
  // not removed since.
  lemma {:induction false} HistoryOfSession(s: State, es: seq<Event>)
    requires Good(s) && IsRun(s, es)
    ensures Exec(s, es).active == InForeground(s.active, es)
    ensures Exec(s, es).listed == Announced(s.listed, es)
    decreases es
  {
    if es != [] {
      SessionStep(s, es[0]);
      assert [es[0]][1..] == [];
      StepKeeps(s, es[0]);
      HistoryOfSession(Step(s, es[0]), es[1..]);
    }
  }

  // From a pause until the session is active again nothing is opened, closed or reconfigured, whatever
  // udev and the configuration say meanwhile.
  lemma {:induction false} NothingHappensInTheBackground(s: State, es: seq<Event>)
    requires Good(s) && IsRun(s, [Pause] + es) && forall i :: 0 <= i < |es| ==> !es[i].Activate?
    ensures Exec(s, [Pause] + es) == s.(active := false, listed := Announced(s.listed, es))
  {
    assert ([Pause] + es)[1..] == es;
    SameDevicesSameUses(s, s.(active := false));
    OnlyTheListMoves(s.(active := false), es);
  }

  lemma {:induction false} OnlyTheListMoves(s: State, es: seq<Event>)
    requires !s.crashed && !s.active && forall i :: 0 <= i < |es| ==> !es[i].Activate?
    ensures Exec(s, es) == s.(listed := Announced(s.listed, es))
    decreases es
  {
    if es != [] {
      OnlyTheListMoves(Step(s, es[0]), es[1..]);
    }
  }
}
