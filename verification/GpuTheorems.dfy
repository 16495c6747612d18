/**
 What every run of the GPU bookkeeping keeps, and what resuming a session leaves behind.
 */
module GpuTheorems {
  import opened Options
  import opened GpuMachine

  // --- What every operation keeps ---------------------------------------------------------------

  ghost predicate Inv(s: State) {
    && !s.complained
    && (forall n :: n in s.devices ==> s.seat.isPrimary(n))
    && (forall n :: n in s.devices && s.devices[n].Some? ==> s.devices[n].value in s.gpuNodes)
    && (forall r :: r in s.gpuNodes && r != s.seat.primaryRender ==> Uses(s, r))
    && (s.dmabufGlobal <==> Uses(s, s.seat.primaryRender))
  }

  // Everything an operation on devices leaves alone.
  ghost predicate SameFrame(s: State, t: State) {
    t.seat == s.seat && t.active == s.active && t.listed == s.listed && t.ignored == s.ignored
  }

  lemma AddedKeeps(s: State, n: Node, o: Opening)
    requires Inv(s)
    ensures var t := DeviceAdded(s, n, o);
            SameFrame(s, t) && !t.complained && (!t.crashed ==> Inv(t))
  {
    var t := DeviceAdded(s, n, o);
    if !s.crashed && !t.crashed && Inserts(s, n, o) && n !in s.devices {
      forall r ensures Uses(t, r) <==> Uses(s, r) || o.render == Some(r) {
        UsesAfterInsert(s, t, n, o.render, r);
      }
    } else if !t.crashed {
      assert t.devices == s.devices;
      forall r ensures Uses(t, r) <==> Uses(s, r) {
      }
    }
  }

  lemma UsesAfterInsert(s: State, t: State, n: Node, render: Option<Node>, r: Node)
    requires n !in s.devices && t.devices == s.devices[n := render]
    ensures Uses(t, r) <==> Uses(s, r) || render == Some(r)
  {
    if Uses(s, r) {
      var m :| m in s.devices && s.devices[m] == Some(r);
      assert m in t.devices && t.devices[m] == Some(r);
    }
    if render == Some(r) {
      assert n in t.devices && t.devices[n] == Some(r);
    }
  }

  lemma UsesAfterRemove(s: State, t: State, n: Node, r: Node)
    requires n in s.devices && t.devices == s.devices - {n}
    ensures Uses(s, r) <==> Uses(t, r) || s.devices[n] == Some(r)
  {
    if Uses(s, r) && s.devices[n] != Some(r) {
      var m :| m in s.devices && s.devices[m] == Some(r);
      assert m in t.devices && t.devices[m] == Some(r);
    }
    if Uses(t, r) {
      var m :| m in t.devices && t.devices[m] == Some(r);
      assert m in s.devices && s.devices[m] == Some(r);
    }
  }

  lemma RemovedKeeps(s: State, n: Node)
    requires Inv(s)
    ensures var t := DeviceRemoved(s, n);
            SameFrame(s, t) && Inv(t) && t.crashed == s.crashed
    ensures !s.crashed ==> DeviceRemoved(s, n).devices == s.devices - {n}
  {
    if !s.crashed && n in s.devices {
      var t := s.(devices := s.devices - {n});
      var u := DeviceRemoved(s, n);
      forall r
        ensures Uses(s, r) <==> Uses(t, r) || s.devices[n] == Some(r)
        ensures Uses(u, r) <==> Uses(t, r)
      {
        UsesAfterRemove(s, t, n, r);
      }
    } else if !s.crashed {
      assert s.devices - {n} == s.devices;
    }
  }

  lemma {:induction false} RemoveAllKeeps(s: State, order: seq<Node>, which: set<Node>)
    requires Inv(s) && !s.crashed
    ensures var t := RemoveAll(s, order, which);
            && SameFrame(s, t) && Inv(t) && !t.crashed
            && t.devices == s.devices - set n | n in order && n in which
    decreases order
  {
    if order != [] {
      var n := order[|order| - 1];
      var rest := order[..|order| - 1];
      RemoveAllKeeps(s, rest, which);
      RemovedKeeps(RemoveAll(s, rest, which), n);
      assert order == rest + [n];
    }
  }

  // Adding nodes that are not devices yet, each once, never trips the insert assertion.
  lemma {:induction false} AddAllKeeps(s: State, order: seq<Node>, which: set<Node>, open: Openings)
    requires Inv(s) && !s.crashed && Distinct(order) && which !! s.devices.Keys
    ensures var t := AddAll(s, order, which, open);
            && SameFrame(s, t) && Inv(t) && !t.crashed
            && (forall n :: n in s.devices ==> n in t.devices && t.devices[n] == s.devices[n])
            && (forall n :: n in t.devices && n !in s.devices ==> n in order && n in which)
    decreases order
  {
    if order != [] {
      var n := order[|order| - 1];
      var rest := order[..|order| - 1];
      AddAllKeeps(s, rest, which, open);
      AddedKeeps(AddAll(s, rest, which, open), n, open(n));
      assert order == rest + [n];
      assert n !in rest;
    }
  }

  lemma {:induction false} WithoutIsDistinct(order: seq<Node>, n: Node)
    requires Distinct(order)
    ensures Distinct(Without(order, n))
    ensures forall m :: m in Without(order, n) <==> m in order && m != n
    decreases order
  {
    if order != [] {
      var rest := order[..|order| - 1];
      WithoutIsDistinct(rest, n);
      assert order == rest + [order[|order| - 1]];
      assert order[|order| - 1] !in rest;
    }
  }

  lemma PrimaryFirstIsDistinct(seat: Seat, order: seq<Node>)
    requires Distinct(order)
    ensures Distinct(PrimaryFirst(seat, order))
    ensures forall m :: m in PrimaryFirst(seat, order) <==> m in order || m == seat.primaryNode
  {
    WithoutIsDistinct(order, seat.primaryNode);
    var rest := Without(order, seat.primaryNode);
    forall i | 0 <= i < |rest| ensures rest[i] != seat.primaryNode {
      assert rest[i] in rest;
    }
  }

  // --- Adding in order --------------------------------------------------------------------------

  ghost predicate RenderersWork(s: State, open: Openings) {
    forall n :: n in s.listed && open(n).Opened? ==> open(n).rendererWorks
  }

  // Brings up the primary renderer, if nothing has yet.
  predicate Starts(s: State, n: Node, open: Openings) {
    && Considered(s, n) && open(n).Opened?
    && open(n).render == Some(s.seat.primaryRender) && open(n).rendererWorks
  }

  // Opens with a renderer, which for the primary renderer must be up or come up.
  predicate Comes(s: State, n: Node, open: Openings, globalThere: bool) {
    && Considered(s, n) && open(n).Opened? && open(n).render.Some?
    && (open(n).render == Some(s.seat.primaryRender) && !globalThere ==> open(n).rendererWorks)
  }

  // A node without a renderer of its own needs the primary device to allocate buffers for it.
  predicate Joins(s: State, n: Node, open: Openings, primaryThere: bool, globalThere: bool) {
    || Comes(s, n, open, globalThere)
    || (Considered(s, n) && open(n).Opened? && open(n).render.None? && primaryThere)
  }

  // Whether the primary renderer is up when the loop gets to position i.
  predicate GlobalThere(s: State, order: seq<Node>, i: nat, which: set<Node>, open: Openings)
    requires i <= |order|
  {
    s.dmabufGlobal || exists k :: 0 <= k < i && order[k] in which && Starts(s, order[k], open)
  }

  // Whether the primary device is there when the loop gets to position i.
  predicate PrimaryThere(s: State, order: seq<Node>, i: nat, which: set<Node>, open: Openings)
    requires i <= |order|
  {
    var p := s.seat.primaryNode;
    || p in s.devices
    || exists k :: 0 <= k < i && order[k] == p && p in which && Comes(s, p, open, GlobalThere(s, order, k, which, open))
  }

  // One turn of the loop.
  lemma AddOneExactly(s: State, t: State, n: Node, open: Openings)
    requires Inv(t) && !t.crashed && SameFrame(s, t) && n !in t.devices
    ensures var u := DeviceAdded(t, n, open(n));
            && u.devices == (if Joins(s, n, open, s.seat.primaryNode in t.devices, t.dmabufGlobal)
                             then t.devices[n := open(n).render] else t.devices)
            && u.dmabufGlobal == (t.dmabufGlobal || Starts(s, n, open))
  {
  }

  lemma GlobalThereGrows(s: State, order: seq<Node>, rest: seq<Node>, n: Node, which: set<Node>, open: Openings)
    requires order == rest + [n]
    ensures GlobalThere(s, order, |order|, which, open) <==>
            GlobalThere(s, rest, |rest|, which, open) || (n in which && Starts(s, n, open))
    ensures forall k :: 0 <= k <= |rest| ==>
              (GlobalThere(s, order, k, which, open) <==> GlobalThere(s, rest, k, which, open))
  {
    assert order[|rest|] == n && forall k :: 0 <= k < |rest| ==> order[k] == rest[k];
  }

  lemma PrimaryThereGrows(s: State, order: seq<Node>, rest: seq<Node>, n: Node, which: set<Node>, open: Openings)
    requires order == rest + [n]
    ensures PrimaryThere(s, order, |order|, which, open) <==>
            || PrimaryThere(s, rest, |rest|, which, open)
            || (n == s.seat.primaryNode && n in which && Comes(s, n, open, GlobalThere(s, rest, |rest|, which, open)))
    ensures forall k :: 0 <= k <= |rest| ==>
              (PrimaryThere(s, order, k, which, open) <==> PrimaryThere(s, rest, k, which, open))
  {
    GlobalThereGrows(s, order, rest, n, which, open);
    assert order[|rest|] == n && forall k :: 0 <= k < |rest| ==> order[k] == rest[k];
  }

  lemma {:induction false} LoopState(s: State, order: seq<Node>, which: set<Node>, open: Openings)
    requires Inv(s) && !s.crashed && Distinct(order) && which !! s.devices.Keys
    ensures var t := AddAll(s, order, which, open);
            && t.dmabufGlobal == GlobalThere(s, order, |order|, which, open)
            && (s.seat.primaryNode in t.devices) == PrimaryThere(s, order, |order|, which, open)
    decreases order
  {
    if order != [] {
      var n := order[|order| - 1];
      var rest := order[..|order| - 1];
      LoopState(s, rest, which, open);
      AddAllKeeps(s, rest, which, open);
      assert order == rest + [n] && n !in rest;
      GlobalThereGrows(s, order, rest, n, which, open);
      PrimaryThereGrows(s, order, rest, n, which, open);
      if n in which {
        AddOneExactly(s, AddAll(s, rest, which, open), n, open);
      }
    }
  }

  // The fate of a node is settled when the loop has reached it.
  lemma {:induction false} FateIsSettled(s: State, order: seq<Node>, i: nat, which: set<Node>, open: Openings)
    requires Inv(s) && !s.crashed && Distinct(order) && which !! s.devices.Keys
    requires i < |order|
    ensures var n := order[i];
            var early, late := AddAll(s, order[..i + 1], which, open), AddAll(s, order, which, open);
            && (n in late.devices <==> n in early.devices)
            && (n in late.devices ==> late.devices[n] == early.devices[n])
    decreases order
  {
    var k := |order| - 1;
    if i == k {
      assert order[..i + 1] == order;
    } else {
      var rest := order[..k];
      assert rest[..i + 1] == order[..i + 1] && rest[i] == order[i];
      FateIsSettled(s, rest, i, which, open);
      AddAllKeeps(s, rest, which, open);
      AddingLeavesOthers(AddAll(s, rest, which, open), order[k], open(order[k]), order[i]);
    }
  }

  lemma AddingLeavesOthers(s: State, n: Node, o: Opening, m: Node)
    requires m != n
    ensures var t := DeviceAdded(s, n, o);
            && (m in t.devices <==> m in s.devices)
            && (m in s.devices ==> t.devices[m] == s.devices[m])
  {
  }

  // Adding one by one: the order matters to a node only through the primary node, and the primary
  // renderer, coming up earlier.
  lemma {:induction false} AddAllExactly(s: State, order: seq<Node>, i: nat, which: set<Node>, open: Openings)
    requires Inv(s) && !s.crashed && Distinct(order) && which !! s.devices.Keys
    requires i < |order| && order[i] in which
    ensures var n, t := order[i], AddAll(s, order, which, open);
            && (n in t.devices <==>
                  Joins(s, n, open, PrimaryThere(s, order, i, which, open), GlobalThere(s, order, i, which, open)))
            && (n in t.devices ==> t.devices[n] == open(n).render)
  {
    var n := order[i];
    var before := order[..i];
    assert order[..i + 1] == before + [n] && before[..|before|] == before && n !in before;
    AddAllKeeps(s, before, which, open);
    LoopState(s, before, which, open);
    SamePrefix(s, order, i, which, open);
    AddOneExactly(s, AddAll(s, before, which, open), n, open);
    FateIsSettled(s, order, i, which, open);
  }

  lemma SamePrefix(s: State, order: seq<Node>, i: nat, which: set<Node>, open: Openings)
    requires i <= |order|
    ensures GlobalThere(s, order[..i], i, which, open) <==> GlobalThere(s, order, i, which, open)
    ensures PrimaryThere(s, order[..i], i, which, open) <==> PrimaryThere(s, order, i, which, open)
  {
    assert forall k :: 0 <= k < i ==> order[..i][k] == order[k];
    forall k | 0 <= k < i
      ensures GlobalThere(s, order[..i], k, which, open) <==> GlobalThere(s, order, k, which, open)
    {
      assert forall j :: 0 <= j < k ==> order[..i][j] == order[j];
    }
  }

  // --- Resuming ---------------------------------------------------------------------------------

  lemma UpToAdding(s: State, config: set<Node>, removing: seq<Node>) returns (t: State)
    requires Inv(s) && !s.crashed && Enumerates(removing, s.devices.Keys)
    ensures var s1 := s.(active := true, ignored := ComputeIgnored(s.seat, config));
            && t == RefreshAll(RemoveAll(s1, removing, Gone(s1)), Remained(s1))
            && SameFrame(s1, t) && Inv(t) && !t.crashed
            && t.devices == s.devices - Gone(s1)
            && t.devices.Keys == Remained(s1)
  {
    var s1 := s.(active := true, ignored := ComputeIgnored(s.seat, config));
    assert Inv(s1) by {
      assert forall r :: Uses(s1, r) <==> Uses(s, r);
    }
    RemoveAllKeeps(s1, removing, Gone(s1));
    t := RemoveAll(s1, removing, Gone(s1));
    forall n | n in Gone(s1) ensures n in removing {
      assert n in s.devices.Keys;
    }
    assert (set n | n in removing && n in Gone(s1)) == Gone(s1);
  }

  // A device that is still listed and not ignored.
  predicate Stays(s: State, ignored: set<Node>, n: Node) {
    n in s.devices && n in s.listed && n !in ignored
  }

  // A node that is to be added.
  predicate IsNew(s: State, ignored: set<Node>, n: Node) {
    n in s.listed && n !in s.devices && s.seat.isPrimary(n) && n !in ignored
  }

  // The primary renderer is up from before.
  ghost predicate GlobalStays(s: State, ignored: set<Node>) {
    exists n :: Stays(s, ignored, n) && s.devices[n] == Some(s.seat.primaryRender)
  }

  predicate OnPrimaryRenderer(s: State, n: Node, open: Openings) {
    open(n).Opened? && open(n).render == Some(s.seat.primaryRender)
  }

  // A new node that brings up the primary renderer comes before n.
  ghost predicate StartedBefore(s: State, ignored: set<Node>, order: seq<Node>, open: Openings, n: Node) {
    exists m :: Precedes(order, m, n) && IsNew(s, ignored, m) && OnPrimaryRenderer(s, m, open) && open(m).rendererWorks
  }

  ghost predicate GlobalUpFor(s: State, ignored: set<Node>, order: seq<Node>, open: Openings, n: Node) {
    GlobalStays(s, ignored) || StartedBefore(s, ignored, order, open, n)
  }

  // A new node with a renderer of its own that becomes a device.
  ghost predicate ComesUp(s: State, ignored: set<Node>, order: seq<Node>, open: Openings, n: Node) {
    && IsNew(s, ignored, n) && open(n).Opened? && open(n).render.Some?
    && (OnPrimaryRenderer(s, n, open) ==> open(n).rendererWorks || GlobalUpFor(s, ignored, order, open, n))
  }

  ghost predicate PrimaryThereFor(s: State, ignored: set<Node>, order: seq<Node>, open: Openings, n: Node) {
    var p := s.seat.primaryNode;
    Stays(s, ignored, p) || (Precedes(order, p, n) && ComesUp(s, ignored, order, open, p))
  }

  // The devices after adding in some order: those that stayed, those that come up with a renderer,
  // and those without one that find the primary device there.
  ghost predicate Ends(s: State, ignored: set<Node>, order: seq<Node>, open: Openings, n: Node) {
    || Stays(s, ignored, n)
    || ComesUp(s, ignored, order, open, n)
    || (&& IsNew(s, ignored, n) && open(n).Opened? && open(n).render.None?
        && PrimaryThereFor(s, ignored, order, open, n))
  }

  ghost predicate Precedes(order: seq<Node>, a: Node, b: Node) {
    exists i, j :: 0 <= i < j < |order| && order[i] == a && order[j] == b
  }

  lemma PrecedesExactly(order: seq<Node>, a: Node, i: nat)
    requires i < |order| && Distinct(order)
    ensures Precedes(order, a, order[i]) <==> exists k :: 0 <= k < i && order[k] == a
  {
    if Precedes(order, a, order[i]) {
      var k, j :| 0 <= k < j < |order| && order[k] == a && order[j] == order[i];
      assert j == i;
    }
  }

  // The state that the adding starts from.
  ghost predicate Reduced(s: State, mid: State, ignored: set<Node>) {
    && Inv(mid) && !mid.crashed && mid.seat == s.seat && mid.ignored == ignored
    && (forall m :: m in mid.devices <==> Stays(s, ignored, m))
    && (forall m :: m in mid.devices ==> mid.devices[m] == s.devices[m])
  }

  lemma ReducedGlobal(s: State, mid: State, ignored: set<Node>)
    requires Reduced(s, mid, ignored)
    ensures mid.dmabufGlobal <==> GlobalStays(s, ignored)
  {
    if mid.dmabufGlobal {
      var n :| n in mid.devices && mid.devices[n] == Some(s.seat.primaryRender);
      assert Stays(s, ignored, n);
    }
    if GlobalStays(s, ignored) {
      var n :| Stays(s, ignored, n) && s.devices[n] == Some(s.seat.primaryRender);
      assert n in mid.devices;
    }
  }

  lemma GlobalThereExactly(s: State, mid: State, ignored: set<Node>, order: seq<Node>, i: nat, open: Openings)
    requires Reduced(s, mid, ignored) && i < |order| && Distinct(order)
    ensures GlobalThere(mid, order, i, s.listed - s.devices.Keys, open) <==>
            GlobalUpFor(s, ignored, order, open, order[i])
  {
    var which := s.listed - s.devices.Keys;
    ReducedGlobal(s, mid, ignored);
    forall m ensures Precedes(order, m, order[i]) <==> exists k :: 0 <= k < i && order[k] == m {
      PrecedesExactly(order, m, i);
    }
    if StartedBefore(s, ignored, order, open, order[i]) {
      var m :| Precedes(order, m, order[i]) && IsNew(s, ignored, m) && OnPrimaryRenderer(s, m, open)
               && open(m).rendererWorks;
      var k :| 0 <= k < i && order[k] == m;
      assert order[k] in which && Starts(mid, order[k], open);
    }
    if k :| 0 <= k < i && order[k] in which && Starts(mid, order[k], open) {
      assert Precedes(order, order[k], order[i]) && IsNew(s, ignored, order[k]);
    }
  }

  lemma PrimaryThereExactly(s: State, mid: State, ignored: set<Node>, order: seq<Node>, i: nat, open: Openings)
    requires Reduced(s, mid, ignored) && i < |order| && Distinct(order)
    ensures PrimaryThere(mid, order, i, s.listed - s.devices.Keys, open) <==>
            PrimaryThereFor(s, ignored, order, open, order[i])
  {
    var p := s.seat.primaryNode;
    PrecedesExactly(order, p, i);
    forall k | 0 <= k < i
      ensures GlobalThere(mid, order, k, s.listed - s.devices.Keys, open) <==>
              GlobalUpFor(s, ignored, order, open, order[k])
    {
      GlobalThereExactly(s, mid, ignored, order, k, open);
    }
  }

  lemma {:induction false} AddedExactly(s: State, mid: State, ignored: set<Node>, order: seq<Node>,
                                        open: Openings, n: Node)
    requires Reduced(s, mid, ignored) && Distinct(order) && n in order && n in s.listed && n !in s.devices
    requires (s.listed - s.devices.Keys) !! mid.devices.Keys
    ensures var t := AddAll(mid, order, s.listed - s.devices.Keys, open);
            && (n in t.devices <==> Ends(s, ignored, order, open, n))
            && (n in t.devices ==> t.devices[n] == open(n).render)
  {
    var i :| 0 <= i < |order| && order[i] == n;
    AddAllExactly(mid, order, i, s.listed - s.devices.Keys, open);
    PrimaryThereExactly(s, mid, ignored, order, i, open);
    GlobalThereExactly(s, mid, ignored, order, i, open);
  }

  lemma {:induction false} ReducedAndAdded(s: State, mid: State, ignored: set<Node>, order: seq<Node>, open: Openings)
    requires Inv(s) && Reduced(s, mid, ignored) && Distinct(order) && forall n :: n in s.listed ==> n in order
    ensures var t := AddAll(mid, order, s.listed - s.devices.Keys, open);
            && Inv(t) && !t.crashed && t.seat == s.seat
            && (forall n :: n in t.devices <==> Ends(s, ignored, order, open, n))
            && (forall n :: n in t.devices ==>
                  t.devices[n] == if n in s.devices then s.devices[n] else open(n).render)
  {
    var which := s.listed - s.devices.Keys;
    forall m | m in mid.devices.Keys ensures m !in which {
      assert m in mid.devices;
    }
    AddAllKeeps(mid, order, which, open);
    var t := AddAll(mid, order, which, open);
    forall n
      ensures n in t.devices <==> Ends(s, ignored, order, open, n)
      ensures n in t.devices ==> t.devices[n] == if n in s.devices then s.devices[n] else open(n).render
    {
      if n in which { AddedExactly(s, mid, ignored, order, open, n); }
    }
  }

  lemma UpToAddingReduces(s: State, config: set<Node>, removing: seq<Node>) returns (mid: State)
    requires Inv(s) && !s.crashed && Enumerates(removing, s.devices.Keys)
    ensures var s1 := s.(active := true, ignored := ComputeIgnored(s.seat, config));
            && mid == RefreshAll(RemoveAll(s1, removing, Gone(s1)), Remained(s1))
            && mid.devices.Keys == Remained(s1)
    ensures Reduced(s, mid, ComputeIgnored(s.seat, config))
  {
    mid := UpToAdding(s, config, removing);
    var ignored := ComputeIgnored(s.seat, config);
    forall m ensures m in mid.devices <==> Stays(s, ignored, m) {
      assert m in mid.devices <==> m in mid.devices.Keys;
    }
  }

  // Which nodes are devices after resuming, with which render nodes, whatever fails and in whatever
  // hash order: the primary node comes first, so a node without a renderer needs only that it comes
  // up. No assertion and no unwrap fails.
  lemma ResumeExactly(s: State, config: set<Node>, removing: seq<Node>, adding: seq<Node>, open: Openings)
    requires Inv(s) && !s.crashed && Enumerates(removing, s.devices.Keys) && Enumerates(adding, s.listed)
    ensures var t, ignored := ActivateSession(s, config, removing, adding, open), ComputeIgnored(s.seat, config);
            var order := PrimaryFirst(s.seat, adding);
            && Inv(t) && !t.crashed && t.seat == s.seat
            && (forall n :: n in t.devices <==> Ends(s, ignored, order, open, n))
            && (forall n :: n in t.devices ==>
                  t.devices[n] == if n in s.devices then s.devices[n] else open(n).render)
  {
    var mid := UpToAddingReduces(s, config, removing);
    PrimaryFirstIsDistinct(s.seat, adding);
    ReducedAndAdded(s, mid, ComputeIgnored(s.seat, config), PrimaryFirst(s.seat, adding), open);
  }

  // When resuming, the primary node finds nothing started before it, and every other node finds it
  // there if it comes up.
  lemma PrimaryFirstMatters(s: State, ignored: set<Node>, adding: seq<Node>, open: Openings, n: Node)
    requires Enumerates(adding, s.listed) && n in s.listed
    ensures var p, order := s.seat.primaryNode, PrimaryFirst(s.seat, adding);
            && !StartedBefore(s, ignored, order, open, p)
            && (n != p ==> Precedes(order, p, n))
  {
    var p, order := s.seat.primaryNode, PrimaryFirst(s.seat, adding);
    PrimaryFirstIsDistinct(s.seat, adding);
    forall m ensures !Precedes(order, m, p) {
      PrecedesExactly(order, m, 0);
    }
    assert n in order;
    var i :| 0 <= i < |order| && order[i] == n;
    assert order[0] == p;
    if n != p { assert Precedes(order, order[0], order[i]); }
  }

  // If no node brings up the primary renderer, the nodes on it stay out, and with them, if the primary
  // node is one, the nodes without a renderer.
  lemma ResumeWithoutPrimaryRenderer(s: State, config: set<Node>, removing: seq<Node>, adding: seq<Node>,
                                     open: Openings)
    requires Inv(s) && !s.crashed && Enumerates(removing, s.devices.Keys) && Enumerates(adding, s.listed)
    requires !GlobalStays(s, ComputeIgnored(s.seat, config))
    requires forall n :: IsNew(s, ComputeIgnored(s.seat, config), n) && OnPrimaryRenderer(s, n, open) ==>
               !open(n).rendererWorks
    ensures var t, ignored := ActivateSession(s, config, removing, adding, open), ComputeIgnored(s.seat, config);
            var p := s.seat.primaryNode;
            && !t.dmabufGlobal
            && forall n :: n in t.devices <==>
                 || Stays(s, ignored, n)
                 || (&& IsNew(s, ignored, n) && open(n).Opened? && !OnPrimaryRenderer(s, n, open)
                     && (|| open(n).render.Some?
                         || Stays(s, ignored, p)
                         || (&& IsNew(s, ignored, p) && open(p).Opened? && open(p).render.Some?
                             && !OnPrimaryRenderer(s, p, open))))
  {
    var t, ignored := ActivateSession(s, config, removing, adding, open), ComputeIgnored(s.seat, config);
    var order := PrimaryFirst(s.seat, adding);
    ResumeExactly(s, config, removing, adding, open);
    forall n | n in s.listed ensures n != s.seat.primaryNode ==> Precedes(order, s.seat.primaryNode, n) {
      PrimaryFirstMatters(s, ignored, adding, open, n);
    }
    assert forall n :: !StartedBefore(s, ignored, order, open, n);
  }

  // When every node opens with a working renderer, exactly the listed, non-ignored, primary-type
  // nodes are devices.
  lemma ResumeLeavesTheListedNodes(s: State, config: set<Node>, removing: seq<Node>, adding: seq<Node>, open: Openings)
    requires Inv(s) && !s.crashed && RenderersWork(s, open)
    requires Enumerates(removing, s.devices.Keys) && Enumerates(adding, s.listed)
    requires forall n :: n in s.listed ==> open(n).Opened? && open(n).render.Some?
    ensures ActivateSession(s, config, removing, adding, open).devices.Keys ==
            set n | n in s.listed && s.seat.isPrimary(n) && n !in ComputeIgnored(s.seat, config)
  {
    ResumeExactly(s, config, removing, adding, open);
    var t := ActivateSession(s, config, removing, adding, open);
    forall n ensures n in t.devices.Keys <==>
                       n in s.listed && s.seat.isPrimary(n) && n !in ComputeIgnored(s.seat, config)
    {
      assert n in t.devices.Keys <==> n in t.devices;
    }
  }

  // --- Ignoring nodes ---------------------------------------------------------------------------

  // The primary node is never ignored. The primary render node, which is not to be ignored either,
  // still is when the configuration names both, since taking out the first skips the second.
  lemma IgnoredExactly(seat: Seat, config: set<Node>, n: Node)
    ensures n in ComputeIgnored(seat, config) <==>
              && n in config && n != seat.primaryNode
              && (n == seat.primaryRender ==> seat.primaryNode in config)
  {
  }

  // --- Whole runs -------------------------------------------------------------------------------

  ghost predicate Good(s: State) {
    !s.crashed && Inv(s) && (s.active ==> s.devices.Keys <= s.listed)
  }

  lemma SameDevicesSameUses(s: State, t: State)
    requires t.devices == s.devices
    ensures forall r :: Uses(t, r) <==> Uses(s, r)
  {
  }

  lemma ActivateKeeps(s: State, config: set<Node>, removing: seq<Node>, adding: seq<Node>, open: Openings)
    requires Good(s) && Enumerates(removing, s.devices.Keys) && Enumerates(adding, s.listed)
    ensures Good(ActivateSession(s, config, removing, adding, open))
  {
    var mid := UpToAdding(s, config, removing);
    var which := s.listed - s.devices.Keys;
    PrimaryFirstIsDistinct(s.seat, adding);
    AddAllKeeps(mid, PrimaryFirst(s.seat, adding), which, open);
    var t := ActivateSession(s, config, removing, adding, open);
    forall n | n in t.devices.Keys ensures n in s.listed {
      if n in mid.devices { assert n in mid.devices.Keys; }
    }
  }

  lemma UpdateIgnoredKeeps(s: State, config: set<Node>, removing: seq<Node>, adding: seq<Node>, open: Openings)
    requires Good(s) && Enumerates(removing, s.devices.Keys) && Enumerates(adding, s.listed)
    ensures Good(UpdateIgnored(s, config, removing, adding, open))
  {
    var ignored := ComputeIgnored(s.seat, config);
    if s.active && ignored != s.ignored {
      var s1 := s.(ignored := ignored);
      SameDevicesSameUses(s, s1);
      RemoveAllKeeps(s1, removing, Gone(s1));
      var s2 := RemoveAll(s1, removing, Gone(s1));
      AddAllKeeps(s2, adding, s1.listed - Gone(s1) - s2.devices.Keys, open);
      var t := UpdateIgnored(s, config, removing, adding, open);
      forall n | n in t.devices.Keys ensures n in s.listed {
        if n in s2.devices { assert n in s.devices.Keys; }
      }
    }
  }

  lemma StepKeeps(s: State, e: Event)
    requires Good(s) && CanHappen(s, e)
    ensures Good(Step(s, e))
  {
    match e
    case Added(n, config, o) => AddedEventKeeps(s, n, config, o);
    case Changed(n, hasPath, o) => AddedKeeps(s, n, o);
    case Removed(n) =>
      var s1 := s.(listed := s.listed - {n});
      SameDevicesSameUses(s, s1);
      RemovedKeeps(s1, n);
    case Pause => SameDevicesSameUses(s, s.(active := false));
    case Activate(config, removing, adding, open) => ActivateKeeps(s, config, removing, adding, open);
    case Reconfigure(config, removing, adding, open) => UpdateIgnoredKeeps(s, config, removing, adding, open);
  }

  lemma AddedEventKeeps(s: State, n: Node, config: set<Node>, o: Opening)
    requires Good(s) && n !in s.listed
    ensures Good(Step(s, Added(n, config, o)))
  {
    var s1 := s.(listed := s.listed + {n});
    SameDevicesSameUses(s, s1);
    if s.active {
      assert n !in s.devices.Keys;
      var s2 := s1.(ignored := ComputeIgnored(s.seat, config));
      SameDevicesSameUses(s, s2);
      AddedKeeps(s2, n, o);
    }
  }

  lemma {:induction false} RunKeeps(s: State, es: seq<Event>)
    requires Good(s) && IsRun(s, es)
    ensures Good(Exec(s, es))
    decreases |es|
  {
    if es != [] {
      StepKeeps(s, es[0]);
      RunKeeps(Step(s, es[0]), es[1..]);
    }
  }

  lemma StartsGood(s: State, config: set<Node>, adding: seq<Node>, open: Openings)
    requires IsFresh(s) && Enumerates(adding, s.listed)
    ensures Good(Init(s, config, adding, open))
  {
    if s.active {
      var s1 := s.(ignored := ComputeIgnored(s.seat, config));
      PrimaryFirstIsDistinct(s.seat, adding);
      AddAllKeeps(s1, PrimaryFirst(s.seat, adding), s.listed, open);
      var t := Init(s, config, adding, open);
      forall n | n in t.devices.Keys ensures n in s.listed {
      }
    }
  }

  // In every run from start-up: nothing crashes, and nothing finds the dmabuf global missing; the
  // global exists exactly while a device draws with the primary render node; every render node in
  // use is known to the GPU manager; and any other node it knows is the primary render node.
  lemma {:induction false} DmabufGlobalExactly(s: State, config: set<Node>, adding: seq<Node>, open: Openings,
                                               es: seq<Event>)
    requires IsFresh(s) && Enumerates(adding, s.listed) && IsRun(Init(s, config, adding, open), es)
    ensures var t := Exec(Init(s, config, adding, open), es);
            && !t.crashed && !t.complained
            && (t.dmabufGlobal <==> Uses(t, t.seat.primaryRender))
            && (forall r :: Uses(t, r) ==> r in t.gpuNodes)
            && (forall r :: r in t.gpuNodes && r != t.seat.primaryRender ==> Uses(t, r))
            && (t.active ==> t.devices.Keys <= t.listed)
  {
    StartsGood(s, config, adding, open);
    RunKeeps(Init(s, config, adding, open), es);
  }

  // --- Render nodes -----------------------------------------------------------------------------

  lemma RemovedDrops(s: State, n: Node, r: Node)
    requires Inv(s) && r in s.gpuNodes && r !in DeviceRemoved(s, n).gpuNodes
    ensures Uses(s, r) && !Uses(DeviceRemoved(s, n), r)
  {
    assert n in s.devices && s.devices[n] == Some(r);
  }

  lemma {:induction false} RemoveAllDrops(s: State, order: seq<Node>, which: set<Node>, r: Node)
    requires Inv(s) && !s.crashed && r in s.gpuNodes && r !in RemoveAll(s, order, which).gpuNodes
    ensures Uses(s, r)
    decreases order
  {
    var n := order[|order| - 1];
    var rest := order[..|order| - 1];
    RemoveAllKeeps(s, rest, which);
    var t := RemoveAll(s, rest, which);
    if r in t.gpuNodes {
      RemovedDrops(t, n, r);
      var m :| m in t.devices && t.devices[m] == Some(r);
      assert m in s.devices && s.devices[m] == Some(r);
    } else {
      RemoveAllDrops(s, rest, which, r);
    }
  }

  lemma {:induction false} AddAllDropsNothing(s: State, order: seq<Node>, which: set<Node>, open: Openings)
    ensures s.gpuNodes <= AddAll(s, order, which, open).gpuNodes
    decreases order
  {
    if order != [] {
      AddAllDropsNothing(s, order[..|order| - 1], which, open);
    }
  }

  // A render node is dropped only by a step that takes away its last user.
  lemma RenderNodeDroppedWithLastUser(s: State, e: Event, r: Node)
    requires Good(s) && CanHappen(s, e) && r in s.gpuNodes && r !in Step(s, e).gpuNodes
    ensures Uses(s, r) && !Uses(Step(s, e), r)
  {
    StepKeeps(s, e);
    match e
    case Removed(n) =>
      var s1 := s.(listed := s.listed - {n});
      SameDevicesSameUses(s, s1);
      RemovedDrops(s1, n, r);
    case Activate(config, removing, adding, open) =>
      var s1 := s.(active := true, ignored := ComputeIgnored(s.seat, config));
      SameDevicesSameUses(s, s1);
      var mid := UpToAdding(s, config, removing);
      AddAllDropsNothing(mid, PrimaryFirst(s.seat, adding), s.listed - s.devices.Keys, open);
      RemoveAllDrops(s1, removing, Gone(s1), r);
    case Reconfigure(config, removing, adding, open) =>
      var s1 := s.(ignored := ComputeIgnored(s.seat, config));
      SameDevicesSameUses(s, s1);
      var s2 := RemoveAll(s1, removing, Gone(s1));
      AddAllDropsNothing(s2, adding, s1.listed - Gone(s1) - s2.devices.Keys, open);
      RemoveAllDrops(s1, removing, Gone(s1), r);
    case _ =>
  }

  ghost predicate NoneIdle(s: State) {
    forall r :: r in s.gpuNodes ==> Uses(s, r)
  }

  // Adding a device leaves a render node without a user exactly when the primary renderer was to
  // be brought up and did not work.
  lemma LeaksExactlyWhen(s: State, n: Node, o: Opening)
    requires Inv(s) && !s.crashed && n !in s.devices && NoneIdle(s)
    ensures !NoneIdle(DeviceAdded(s, n, o)) <==>
            Considered(s, n) && StartsPrimaryRenderer(s, o) && !o.rendererWorks
  {
    var t := DeviceAdded(s, n, o);
    if Inserts(s, n, o) {
      forall r ensures Uses(t, r) <==> Uses(s, r) || o.render == Some(r) {
        UsesAfterInsert(s, t, n, o.render, r);
      }
    } else {
      SameDevicesSameUses(s, t);
    }
  }

  lemma {:induction false} AddAllLeaksNothing(s: State, order: seq<Node>, which: set<Node>, open: Openings)
    requires Inv(s) && !s.crashed && Distinct(order) && which !! s.devices.Keys && NoneIdle(s)
    requires forall n :: n in which && open(n).Opened? ==> open(n).rendererWorks
    ensures NoneIdle(AddAll(s, order, which, open))
    decreases order
  {
    if order != [] {
      var n := order[|order| - 1];
      var rest := order[..|order| - 1];
      AddAllLeaksNothing(s, rest, which, open);
      AddAllKeeps(s, rest, which, open);
      assert n !in rest;
      if n in which {
        LeaksExactlyWhen(AddAll(s, rest, which, open), n, open(n));
      }
    }
  }

  lemma RemovedLeaksNothing(s: State, n: Node)
    requires Inv(s) && NoneIdle(s)
    ensures NoneIdle(DeviceRemoved(s, n))
  {
    var t := DeviceRemoved(s, n);
    if !s.crashed && n in s.devices {
      forall r | r in t.gpuNodes ensures Uses(t, r) {
        UsesAfterRemove(s, s.(devices := s.devices - {n}), n, r);
        SameDevicesSameUses(s.(devices := s.devices - {n}), t);
      }
    }
  }

  lemma {:induction false} RemoveAllLeaksNothing(s: State, order: seq<Node>, which: set<Node>)
    requires Inv(s) && !s.crashed && NoneIdle(s)
    ensures NoneIdle(RemoveAll(s, order, which))
    decreases order
  {
    if order != [] {
      RemoveAllLeaksNothing(s, order[..|order| - 1], which);
      RemoveAllKeeps(s, order[..|order| - 1], which);
      RemovedLeaksNothing(RemoveAll(s, order[..|order| - 1], which), order[|order| - 1]);
    }
  }

  ghost predicate RenderersWorkIn(e: Event) {
    && ((e.Added? || e.Changed?) && e.opening.Opened? ==> e.opening.rendererWorks)
    && (e.Activate? || e.Reconfigure? ==> forall n :: e.open(n).Opened? ==> e.open(n).rendererWorks)
  }

  lemma StepLeaksNothing(s: State, e: Event)
    requires Good(s) && CanHappen(s, e) && NoneIdle(s) && RenderersWorkIn(e)
    ensures NoneIdle(Step(s, e))
  {
    match e
    case Added(n, config, o) =>
      var s1 := s.(listed := s.listed + {n});
      var s2 := s1.(ignored := ComputeIgnored(s.seat, config));
      SameDevicesSameUses(s, s1);
      SameDevicesSameUses(s, s2);
      if s.active {
        assert n !in s.devices.Keys;
        LeaksExactlyWhen(s2, n, o);
      }
    case Changed(n, hasPath, o) =>
      if n !in s.devices { LeaksExactlyWhen(s, n, o); }
    case Removed(n) =>
      var s1 := s.(listed := s.listed - {n});
      SameDevicesSameUses(s, s1);
      RemovedLeaksNothing(s1, n);
    case Pause => SameDevicesSameUses(s, s.(active := false));
    case Activate(config, removing, adding, open) =>
      var s1 := s.(active := true, ignored := ComputeIgnored(s.seat, config));
      SameDevicesSameUses(s, s1);
      RemoveAllLeaksNothing(s1, removing, Gone(s1));
      var mid := UpToAdding(s, config, removing);
      PrimaryFirstIsDistinct(s.seat, adding);
      AddAllLeaksNothing(mid, PrimaryFirst(s.seat, adding), s.listed - s.devices.Keys, open);
    case Reconfigure(config, removing, adding, open) =>
      var s1 := s.(ignored := ComputeIgnored(s.seat, config));
      SameDevicesSameUses(s, s1);
      RemoveAllLeaksNothing(s1, removing, Gone(s1));
      RemoveAllKeeps(s1, removing, Gone(s1));
      var s2 := RemoveAll(s1, removing, Gone(s1));
      AddAllLeaksNothing(s2, adding, s1.listed - Gone(s1) - s2.devices.Keys, open);
  }

  // While renderers work, the GPU manager knows exactly the render nodes in use, in every run.
  lemma {:induction false} RenderNodesExactly(s: State, es: seq<Event>)
    requires Good(s) && NoneIdle(s) && IsRun(s, es)
    requires forall i :: 0 <= i < |es| ==> RenderersWorkIn(es[i])
    ensures forall r :: r in Exec(s, es).gpuNodes <==> Uses(Exec(s, es), r)
    decreases |es|
  {
    if es != [] {
      StepKeeps(s, es[0]);
      StepLeaksNothing(s, es[0]);
      RenderNodesExactly(Step(s, es[0]), es[1..]);
    }
  }

  // --- The insert assertion ---------------------------------------------------------------------

  // Without the udev discipline: announcing a node trips the assertion exactly when it is a device
  // already and adding it gets as far as the insertion. Changes and removals never do.
  lemma AnnouncingCrashesExactlyWhen(s: State, e: Event)
    requires !s.crashed && (e.Added? || e.Changed? || e.Removed? || e.Pause?)
    ensures Step(s, e).crashed <==>
              && e.Added? && s.active && e.node in s.devices
              && Inserts(s.(ignored := ComputeIgnored(s.seat, e.config)), e.node, e.opening)
  {
  }

  // Reporting a change of a node before announcing it is enough.
  lemma {:induction false} ChangeBeforeAnnouncement(s: State, n: Node, render: Node)
    requires Good(s) && s.active && n !in s.listed && Considered(s, n) && s.ignored == ComputeIgnored(s.seat, s.ignored)
    ensures var o := Opened(Some(render), true);
            Exec(s, [Changed(n, true, o), Added(n, s.ignored, o)]).crashed
  {
    var o := Opened(Some(render), true);
    var s1 := Step(s, Changed(n, true, o));
    assert n !in s.devices.Keys;
    assert n in s1.devices;
    var s2 := Step(s1, Added(n, s.ignored, o));
    assert s2.crashed;
    var es := [Changed(n, true, o), Added(n, s.ignored, o)];
    assert es[1..] == [Added(n, s.ignored, o)] && es[1..][1..] == [];
    assert Exec(s, es) == Exec(s1, es[1..]) == Exec(s2, []);
  }
}
