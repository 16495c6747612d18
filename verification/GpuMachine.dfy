/**
 Bookkeeping of GPUs on the TTY backend: which DRM nodes are opened as devices, which render node
 each of them draws with, which render nodes the GPU manager knows, and the dmabuf global that
 exists while the primary renderer does.

 Hash maps iterate in an unspecified order, so every loop over one takes that order as a
 parameter. What opening a device yields is a parameter as well.
 */
module GpuMachine {
  import opened Options

  type Node = int

  // Fixed when the backend starts. `isPrimary` says whether a device number is that of a
  // primary-type DRM node (as opposed to a render node, or no DRM node at all).
  datatype Seat = Seat(primaryNode: Node, primaryRender: Node, isPrimary: Node -> bool)

  // Opening fails; or the device opens with its own renderer or without one. `rendererWorks` is
  // asked only when the primary renderer is brought up.
  datatype Opening =
    | OpenFails
    | Opened(render: Option<Node>, rendererWorks: bool)

  datatype State = State(
    seat: Seat,
    active: bool,                        // whether this session is the active one
    listed: set<Node>,                   // the device list of udev
    ignored: set<Node>,
    devices: map<Node, Option<Node>>,    // each device's render node
    gpuNodes: set<Node>,                 // render nodes of the GPU manager
    dmabufGlobal: bool,
    crashed: bool,                       // an assertion or an unwrap failed
    complained: bool)                    // "dmabuf global was already missing" was reported

  type Openings = Node -> Opening

  predicate Distinct(order: seq<Node>) {
    forall i, j :: 0 <= i < j < |order| ==> order[i] != order[j]
  }

  // The configured set, from which the primary node or the primary render node is taken out.
  function ComputeIgnored(seat: Seat, config: set<Node>): set<Node> {
    if seat.primaryNode in config then config - {seat.primaryNode}
    else config - {seat.primaryRender}
  }

  predicate Uses(s: State, render: Node) {
    exists n :: n in s.devices && s.devices[n] == Some(render)
  }

  predicate Considered(s: State, n: Node) {
    s.seat.isPrimary(n) && n !in s.ignored
  }

  // --- Single devices -------------------------------------------------------------------------

  predicate StartsPrimaryRenderer(s: State, o: Opening) {
    o.Opened? && o.render == Some(s.seat.primaryRender) && !s.dmabufGlobal
  }

  // Whether adding a device gets as far as inserting it.
  predicate Inserts(s: State, n: Node, o: Opening) {
    && Considered(s, n)
    && o.Opened?
    && (StartsPrimaryRenderer(s, o) ==> o.rendererWorks)
    && (o.render.None? ==> s.seat.primaryNode in s.devices)
  }

  function WithRenderer(s: State, o: Opening): State {
    var s1 := if o.Opened? && o.render.Some? then s.(gpuNodes := s.gpuNodes + {o.render.value}) else s;
    if StartsPrimaryRenderer(s, o) && o.rendererWorks then s1.(dmabufGlobal := true) else s1
  }

  function DeviceAdded(s: State, n: Node, o: Opening): State {
    if s.crashed || !Considered(s, n) then s
    else
      var s1 := WithRenderer(s, o);
      if !Inserts(s, n, o) then s1
      else if n in s.devices then s1.(crashed := true)
      else s1.(devices := s.devices[n := o.render])
  }

  function DeviceChanged(s: State, n: Node, hasPath: bool, o: Opening): State {
    if !Considered(s, n) || n in s.devices || !hasPath then s
    else DeviceAdded(s, n, o)
  }

  function DropRenderer(s: State, render: Node): State {
    if Uses(s, render) then s
    else
      var s1 := s.(gpuNodes := s.gpuNodes - {render});
      if render == s.seat.primaryRender
      then s1.(dmabufGlobal := false, complained := s.complained || !s.dmabufGlobal)
      else s1
  }

  function DeviceRemoved(s: State, n: Node): State {
    if s.crashed || !s.seat.isPrimary(n) || n !in s.devices then s
    else
      var s1 := s.(devices := s.devices - {n});
      if s.devices[n].Some? then DropRenderer(s1, s.devices[n].value) else s1
  }

  // --- Loops ------------------------------------------------------------------------------------

  function RemoveAll(s: State, order: seq<Node>, which: set<Node>): State
    decreases order
  {
    if order == [] then s
    else
      var n := order[|order| - 1];
      var s1 := RemoveAll(s, order[..|order| - 1], which);
      if n in which then DeviceRemoved(s1, n) else s1
  }

  function AddAll(s: State, order: seq<Node>, which: set<Node>, open: Openings): State
    decreases order
  {
    if order == [] then s
    else
      var n := order[|order| - 1];
      var s1 := AddAll(s, order[..|order| - 1], which, open);
      if n in which then DeviceAdded(s1, n, open(n)) else s1
  }

  // Remained devices are looked up, and the look-up unwrapped.
  function RefreshAll(s: State, which: set<Node>): State {
    if s.crashed || which <= s.devices.Keys then s else s.(crashed := true)
  }

  // --- Whole operations -------------------------------------------------------------------------

  function Gone(s: State): set<Node> {
    set n | n in s.devices && (n !in s.listed || n in s.ignored)
  }

  function Remained(s: State): set<Node> {
    set n | n in s.devices && n in s.listed && n !in s.ignored
  }

  function PrimaryFirst(seat: Seat, order: seq<Node>): seq<Node> {
    [seat.primaryNode] + Without(order, seat.primaryNode)
  }

  function Without(order: seq<Node>, n: Node): seq<Node>
    decreases order
  {
    if order == [] then []
    else
      var rest := Without(order[..|order| - 1], n);
      if order[|order| - 1] == n then rest else rest + [order[|order| - 1]]
  }

  function Init(s: State, config: set<Node>, adding: seq<Node>, open: Openings): State {
    if !s.active then s
    else
      var s1 := s.(ignored := ComputeIgnored(s.seat, config));
      AddAll(s1, PrimaryFirst(s.seat, adding), s.listed, open)
  }

  function ActivateSession(s: State, config: set<Node>, removing: seq<Node>, adding: seq<Node>, open: Openings): State {
    var s1 := s.(active := true, ignored := ComputeIgnored(s.seat, config));
    var s2 := RemoveAll(s1, removing, Gone(s1));
    var s3 := RefreshAll(s2, Remained(s1));
    AddAll(s3, PrimaryFirst(s.seat, adding), s1.listed - s1.devices.Keys, open)
  }

  function UpdateIgnored(s: State, config: set<Node>, removing: seq<Node>, adding: seq<Node>, open: Openings): State {
    var ignored := ComputeIgnored(s.seat, config);
    if !s.active || ignored == s.ignored then s
    else
      var s1 := s.(ignored := ignored);
      var s2 := RemoveAll(s1, removing, Gone(s1));
      AddAll(s2, adding, s1.listed - Gone(s1) - s2.devices.Keys, open)
  }

  // --- Events -----------------------------------------------------------------------------------

  datatype Event =
    | Added(node: Node, config: set<Node>, opening: Opening)
    | Changed(node: Node, hasPath: bool, opening: Opening)
    | Removed(node: Node)
    | Pause
    | Activate(config: set<Node>, removing: seq<Node>, adding: seq<Node>, open: Openings)
    | Reconfigure(config: set<Node>, removing: seq<Node>, adding: seq<Node>, open: Openings)

  function Step(s: State, e: Event): State {
    if s.crashed then s
    else
      match e
      case Added(n, config, o) =>
        var s1 := s.(listed := s.listed + {n});
        if !s.active then s1
        else DeviceAdded(s1.(ignored := ComputeIgnored(s.seat, config)), n, o)
      case Changed(n, hasPath, o) =>
        if !s.active then s else DeviceChanged(s, n, hasPath, o)
      case Removed(n) =>
        var s1 := s.(listed := s.listed - {n});
        if !s.active then s1 else DeviceRemoved(s1, n)
      case Pause => s.(active := false)
      case Activate(config, removing, adding, open) =>
        ActivateSession(s, config, removing, adding, open)
      case Reconfigure(config, removing, adding, open) =>
        UpdateIgnored(s, config, removing, adding, open)
  }

  ghost predicate Enumerates(order: seq<Node>, nodes: set<Node>) {
    Distinct(order) && forall n :: n in order <==> n in nodes
  }

  // Each loop visits every entry of its map once. Udev announces a node once until it is removed,
  // and reports changes only of nodes it announced.
  ghost predicate CanHappen(s: State, e: Event) {
    match e
    case Added(n, _, _) => n !in s.listed
    case Changed(n, _, _) => n in s.listed
    case Removed(_) => true
    case Pause => true
    case Activate(_, removing, adding, _) =>
      Enumerates(removing, s.devices.Keys) && Enumerates(adding, s.listed)
    case Reconfigure(_, removing, adding, _) =>
      Enumerates(removing, s.devices.Keys) && Enumerates(adding, s.listed)
  }

  ghost predicate IsRun(s: State, es: seq<Event>)
    decreases |es|
  {
    es == [] || (CanHappen(s, es[0]) && IsRun(Step(s, es[0]), es[1..]))
  }

  function Exec(s: State, es: seq<Event>): State
    decreases |es|
  {
    if es == [] then s else Exec(Step(s, es[0]), es[1..])
  }

  // The backend before anything was opened.
  predicate IsFresh(s: State) {
    && s.ignored == {} && s.devices == map[] && s.gpuNodes == {}
    && !s.dmabufGlobal && !s.crashed && !s.complained
  }
}
