/**
 Changing the ignored nodes adds devices in the hash order of a map, without putting the primary
 node first. Which devices this leaves, and exactly when the order matters.
 */
module GpuReconfigure {
  import opened Options
  import opened GpuMachine
  import opened GpuTheorems

  // The session is active and the ignored nodes change.
  predicate TakesEffect(s: State, config: set<Node>) {
    s.active && ComputeIgnored(s.seat, config) != s.ignored
  }

  // Which nodes are devices afterwards, and with which render node, whatever fails: as after resuming,
  // but in the hash order itself.
  lemma ReconfigureExactly(s: State, config: set<Node>, removing: seq<Node>, adding: seq<Node>, open: Openings)
    requires Inv(s) && !s.crashed && TakesEffect(s, config)
    requires Enumerates(removing, s.devices.Keys) && Enumerates(adding, s.listed)
    ensures var t, ignored := UpdateIgnored(s, config, removing, adding, open), ComputeIgnored(s.seat, config);
            && Inv(t) && !t.crashed
            && (forall n :: n in t.devices <==> Ends(s, ignored, adding, open, n))
            && (forall n :: n in t.devices ==>
                  t.devices[n] == if n in s.devices then s.devices[n] else open(n).render)
  {
    var ignored := ComputeIgnored(s.seat, config);
    var s1 := s.(ignored := ignored);
    var mid := UpToAddingReduces(s, config, removing);
    assert s1 == s.(active := true, ignored := ignored);
    RemoveAllKeeps(s1, removing, Gone(s1)) by { SameDevicesSameUses(s, s1); }
    assert mid.devices.Keys == Remained(s1);
    SameNodesToAdd(s, s1, mid, ignored);
    ReducedAndAdded(s, mid, ignored, adding, open);
  }

  lemma SameNodesToAdd(s: State, s1: State, mid: State, ignored: set<Node>)
    requires s1 == s.(ignored := ignored) && forall m :: m in mid.devices <==> Stays(s, ignored, m)
    ensures s1.listed - Gone(s1) - mid.devices.Keys == s.listed - s.devices.Keys
  {
    forall n | n in s.listed ensures n in s1.listed - Gone(s1) - mid.devices.Keys <==> n !in s.devices.Keys {
      assert n in mid.devices.Keys <==> n in mid.devices;
    }
  }

  // --- When the order matters -------------------------------------------------------------------

  // A new node that opens without a renderer of its own.
  ghost predicate DisplayOnly(s: State, ignored: set<Node>, open: Openings, n: Node) {
    IsNew(s, ignored, n) && open(n).Opened? && open(n).render.None?
  }

  // A new node on the primary renderer that brings it up, or fails to.
  ghost predicate Starter(s: State, ignored: set<Node>, open: Openings, n: Node) {
    IsNew(s, ignored, n) && OnPrimaryRenderer(s, n, open) && open(n).rendererWorks
  }

  ghost predicate Failing(s: State, ignored: set<Node>, open: Openings, n: Node) {
    IsNew(s, ignored, n) && OnPrimaryRenderer(s, n, open) && !open(n).rendererWorks
  }

  // The primary node is new, and comes up even if added first.
  ghost predicate PrimaryJoins(s: State, ignored: set<Node>, open: Openings) {
    var p := s.seat.primaryNode;
    && IsNew(s, ignored, p) && open(p).Opened? && open(p).render.Some?
    && (Failing(s, ignored, open, p) ==> GlobalStays(s, ignored))
  }

  // A node's fate hangs on the primary node, or on another node bringing up the primary renderer.
  ghost predicate HangsOnOrder(s: State, ignored: set<Node>, open: Openings) {
    || (PrimaryJoins(s, ignored, open) && exists n :: DisplayOnly(s, ignored, open, n))
    || (&& !GlobalStays(s, ignored)
        && (exists n :: Starter(s, ignored, open, n)) && (exists n :: Failing(s, ignored, open, n)))
  }

  ghost predicate SameDevices(s: State, config: set<Node>, open: Openings, r: seq<Node>, a: seq<Node>,
                              r': seq<Node>, a': seq<Node>) {
    UpdateIgnored(s, config, r, a, open).devices == UpdateIgnored(s, config, r', a', open).devices
  }

  ghost predicate OrderIsIrrelevant(s: State, config: set<Node>, open: Openings) {
    forall r, a, r', a' ::
      && Enumerates(r, s.devices.Keys) && Enumerates(a, s.listed)
      && Enumerates(r', s.devices.Keys) && Enumerates(a', s.listed) ==>
        SameDevices(s, config, open, r, a, r', a')
  }

  lemma {:induction false} Enumerated(nodes: set<Node>) returns (order: seq<Node>)
    ensures Enumerates(order, nodes)
    decreases nodes
  {
    order := [];
    if n :| n in nodes {
      var rest := Enumerated(nodes - {n});
      assert n !in rest;
      order := [n] + rest;
    }
  }

  lemma EnumeratedFrom(nodes: set<Node>, first: Node) returns (order: seq<Node>)
    requires first in nodes
    ensures Enumerates(order, nodes) && order[0] == first
  {
    var rest := Enumerated(nodes - {first});
    assert first !in rest;
    order := [first] + rest;
  }

  lemma FirstPrecedes(order: seq<Node>, a: Node, b: Node)
    requires Distinct(order) && |order| > 0 && order[0] == a && b in order && a != b
    ensures Precedes(order, a, b) && !Precedes(order, b, a)
  {
    var j :| 0 <= j < |order| && order[j] == b;
    assert 0 < j;
  }

  lemma SameGlobal(s: State, ignored: set<Node>, a: seq<Node>, a': seq<Node>, open: Openings, n: Node)
    requires !HangsOnOrder(s, ignored, open) && Failing(s, ignored, open, n)
    ensures GlobalUpFor(s, ignored, a, open, n) <==> GlobalStays(s, ignored)
    ensures GlobalUpFor(s, ignored, a', open, n) <==> GlobalStays(s, ignored)
  {
    if StartedBefore(s, ignored, a, open, n) { StartedByAStarter(s, ignored, a, open, n); }
    if StartedBefore(s, ignored, a', open, n) { StartedByAStarter(s, ignored, a', open, n); }
  }

  lemma StartedByAStarter(s: State, ignored: set<Node>, order: seq<Node>, open: Openings, n: Node)
    requires StartedBefore(s, ignored, order, open, n)
    ensures exists m :: Starter(s, ignored, open, m)
  {
    var m :| Precedes(order, m, n) && IsNew(s, ignored, m) && OnPrimaryRenderer(s, m, open) && open(m).rendererWorks;
    assert Starter(s, ignored, open, m);
  }

  lemma SameComesUp(s: State, ignored: set<Node>, a: seq<Node>, a': seq<Node>, open: Openings, n: Node)
    requires !HangsOnOrder(s, ignored, open)
    ensures ComesUp(s, ignored, a, open, n) <==> ComesUp(s, ignored, a', open, n)
    ensures n == s.seat.primaryNode && ComesUp(s, ignored, a, open, n) ==> PrimaryJoins(s, ignored, open)
  {
    if Failing(s, ignored, open, n) { SameGlobal(s, ignored, a, a', open, n); }
  }

  lemma SameEnds(s: State, ignored: set<Node>, a: seq<Node>, a': seq<Node>, open: Openings, n: Node)
    requires !HangsOnOrder(s, ignored, open)
    ensures Ends(s, ignored, a, open, n) <==> Ends(s, ignored, a', open, n)
  {
    SameComesUp(s, ignored, a, a', open, n);
    SameComesUp(s, ignored, a, a', open, s.seat.primaryNode);
    SameComesUp(s, ignored, a', a, open, s.seat.primaryNode);
    if DisplayOnly(s, ignored, open, n) { assert !PrimaryJoins(s, ignored, open); }
  }

  // Every hash order gives the same devices exactly when the change has no effect, or no node's fate
  // hangs on the order: there is no node without a renderer beside a primary node that joins, and none
  // that fails to bring up the primary renderer beside one that does, while it is down.
  lemma OrderIsIrrelevantExactlyWhen(s: State, config: set<Node>, open: Openings)
    requires Inv(s) && !s.crashed
    ensures OrderIsIrrelevant(s, config, open) <==>
            !TakesEffect(s, config) || !HangsOnOrder(s, ComputeIgnored(s.seat, config), open)
  {
    var ignored := ComputeIgnored(s.seat, config);
    if !TakesEffect(s, config) {
      forall r, a, r', a' ensures SameDevices(s, config, open, r, a, r', a') {
      }
    } else if HangsOnOrder(s, ignored, open) {
      if PrimaryJoins(s, ignored, open) && exists n :: DisplayOnly(s, ignored, open, n) {
        var d :| DisplayOnly(s, ignored, open, d);
        PrimaryOrDisplayFirst(s, config, open, d);
      } else {
        var m :| Starter(s, ignored, open, m);
        var d :| Failing(s, ignored, open, d);
        StarterOrFailingFirst(s, config, open, m, d);
      }
    } else {
      forall r, a, r', a'
        | Enumerates(r, s.devices.Keys) && Enumerates(a, s.listed)
          && Enumerates(r', s.devices.Keys) && Enumerates(a', s.listed)
        ensures SameDevices(s, config, open, r, a, r', a')
      {
        OneOutcome(s, config, open, r, a, r', a');
      }
    }
  }

  lemma OneOutcome(s: State, config: set<Node>, open: Openings, r: seq<Node>, a: seq<Node>,
                   r': seq<Node>, a': seq<Node>)
    requires Inv(s) && !s.crashed && TakesEffect(s, config)
    requires Enumerates(r, s.devices.Keys) && Enumerates(a, s.listed)
    requires Enumerates(r', s.devices.Keys) && Enumerates(a', s.listed)
    requires !HangsOnOrder(s, ComputeIgnored(s.seat, config), open)
    ensures SameDevices(s, config, open, r, a, r', a')
  {
    var ignored := ComputeIgnored(s.seat, config);
    var t, t' := UpdateIgnored(s, config, r, a, open), UpdateIgnored(s, config, r', a', open);
    ReconfigureExactly(s, config, r, a, open);
    ReconfigureExactly(s, config, r', a', open);
    forall n
      ensures n in t.devices <==> n in t'.devices
      ensures n in t.devices ==> t.devices[n] == t'.devices[n]
    {
      SameEnds(s, ignored, a, a', open, n);
    }
    assert t.devices.Keys == t'.devices.Keys by {
      forall n ensures n in t.devices.Keys <==> n in t'.devices.Keys {
        assert n in t.devices <==> n in t'.devices;
      }
    }
    assert t.devices == t'.devices;
  }

  // A node that ends up a device in one order and not in the other.
  lemma TwoOutcomes(s: State, config: set<Node>, open: Openings, a: seq<Node>, a': seq<Node>, d: Node)
    requires Inv(s) && !s.crashed && TakesEffect(s, config) && Enumerates(a, s.listed) && Enumerates(a', s.listed)
    requires Ends(s, ComputeIgnored(s.seat, config), a, open, d)
    requires !Ends(s, ComputeIgnored(s.seat, config), a', open, d)
    ensures !OrderIsIrrelevant(s, config, open)
  {
    var r := Enumerated(s.devices.Keys);
    ReconfigureExactly(s, config, r, a, open);
    ReconfigureExactly(s, config, r, a', open);
    var t, t' := UpdateIgnored(s, config, r, a, open), UpdateIgnored(s, config, r, a', open);
    assert d in t.devices && d !in t'.devices;
    assert !SameDevices(s, config, open, r, a, r, a');
  }

  lemma PrimaryOrDisplayFirst(s: State, config: set<Node>, open: Openings, d: Node)
    requires Inv(s) && !s.crashed && TakesEffect(s, config)
    requires var ignored := ComputeIgnored(s.seat, config);
             PrimaryJoins(s, ignored, open) && DisplayOnly(s, ignored, open, d)
    ensures !OrderIsIrrelevant(s, config, open)
  {
    var p := s.seat.primaryNode;
    var a := EnumeratedFrom(s.listed, p);
    var a' := EnumeratedFrom(s.listed, d);
    FirstPrecedes(a, p, d);
    FirstPrecedes(a', d, p);
    TwoOutcomes(s, config, open, a, a', d);
  }

  lemma StarterOrFailingFirst(s: State, config: set<Node>, open: Openings, m: Node, d: Node)
    requires Inv(s) && !s.crashed && TakesEffect(s, config)
    requires var ignored := ComputeIgnored(s.seat, config);
             !GlobalStays(s, ignored) && Starter(s, ignored, open, m) && Failing(s, ignored, open, d)
    ensures !OrderIsIrrelevant(s, config, open)
  {
    var a := EnumeratedFrom(s.listed, m);
    var a' := EnumeratedFrom(s.listed, d);
    FirstPrecedes(a, m, d);
    NothingPrecedesTheFirst(a', d);
    TwoOutcomes(s, config, open, a, a', d);
  }

  lemma NothingPrecedesTheFirst(order: seq<Node>, d: Node)
    requires Distinct(order) && |order| > 0 && order[0] == d
    ensures forall m :: !Precedes(order, m, d)
  {
    forall m ensures !Precedes(order, m, d) {
      PrecedesExactly(order, m, 0);
    }
  }

  lemma OrderDecides(s: State, config: set<Node>, p: Node, d: Node, open: Openings)
    requires Inv(s) && !s.crashed && s.active && s.devices == map[] && p != d
    requires s.seat.primaryNode == p && s.listed == {p, d} && s.seat.isPrimary(p) && s.seat.isPrimary(d)
    requires ComputeIgnored(s.seat, config) != s.ignored && d !in config
    requires open(p).Opened? && open(p).render.Some? && open(p).rendererWorks
    requires open(d) == Opened(None, true)
    ensures UpdateIgnored(s, config, [], [p, d], open).devices.Keys == {p, d}
    ensures UpdateIgnored(s, config, [], [d, p], open).devices.Keys == {p}
  {
    var s1 := s.(ignored := ComputeIgnored(s.seat, config));
    IgnoredExactly(s.seat, config, p);
    IgnoredExactly(s.seat, config, d);
    assert Inv(s1) by {
      assert forall r :: Uses(s1, r) <==> Uses(s, r);
    }
    assert Gone(s1) == {} && RemoveAll(s1, [], {}) == s1;
    assert s1.listed - Gone(s1) - s1.devices.Keys == {p, d};
    Two(s1, [p, d], {p, d}, open);
    Two(s1, [d, p], {p, d}, open);
    var t := UpdateIgnored(s, config, [], [d, p], open);
    assert p in t.devices.Keys && d !in t.devices.Keys;
  }

  lemma {:induction false} Two(s: State, order: seq<Node>, which: set<Node>, open: Openings)
    requires Inv(s) && !s.crashed && s.devices == map[]
    requires |order| == 2 && order[0] != order[1] && which == {order[0], order[1]}
    requires forall n :: n in which ==> Considered(s, n) && open(n).Opened? && open(n).rendererWorks
    requires s.seat.primaryNode in which && open(s.seat.primaryNode).render.Some?
    ensures var t := AddAll(s, order, which, open);
            && t.devices.Keys <= which
            && (order[0] in t.devices <==> open(order[0]).render.Some?)
            && (order[1] in t.devices <==> open(order[1]).render.Some? || s.seat.primaryNode == order[0])
  {
    AddAllKeeps(s, order, which, open);
    AddAllExactly(s, order, 0, which, open);
    AddAllExactly(s, order, 1, which, open);
    var t := AddAll(s, order, which, open);
    forall n | n in t.devices.Keys ensures n in which {
      assert n in t.devices && n !in s.devices;
    }
  }

  // Such a state: the primary node and a display-only node are to be added. The latter becomes a device
  // only if it comes after the former in the hash order.
  lemma ReconfiguringDependsOnTheOrder(p: Node, d: Node, x: Node)
    returns (s: State, config: set<Node>, open: Openings)
    requires p != d && p != x && d != x
    ensures Good(s) && s.seat.primaryNode == p && s.listed == {p, d} && s.devices == map[]
    ensures UpdateIgnored(s, config, [], [p, d], open).devices.Keys == {p, d}
    ensures UpdateIgnored(s, config, [], [d, p], open).devices.Keys == {p}
  {
    s := State(Seat(p, p, _ => true), true, {p, d}, {}, map[], {}, false, false, false);
    config := {x};
    open := n => if n == p then Opened(Some(p), true) else Opened(None, true);
    assert ComputeIgnored(s.seat, config) == {x};
    assert Good(s);
    OrderDecides(s, config, p, d, open);
  }
}
