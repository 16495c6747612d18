/**
 What is under a point of an output. Three functions answer this from different angles: the one
 that finds what receives input, the one that finds the window to activate, and the renderer, whose
 draw order decides what the user sees. They are separate pieces of code that are meant to agree.
 */
module HitTesting {
  import opened Options
  import opened LayerShell

  type Id = int
  datatype Point = Point(x: real, y: real)

  const ORIGIN := Point(0.0, 0.0)

  function Plus(a: Point, b: Point): Point { Point(a.x + b.x, a.y + b.y) }
  function Minus(a: Point, b: Point): Point { Point(a.x - b.x, a.y - b.y) }
  function Scaled(a: Point, k: real): Point { Point(a.x * k, a.y * k) }

  function Unscaled(a: Point, k: real): Point
    requires k != 0.0
  {
    Point(a.x / k, a.y / k)
  }

  // A surface hit inside a surface tree, with its location relative to the tree.
  type TreeHit = (Id, Point)

  datatype LayerSurface = LayerSurface(
    id: Id,
    layer: Layer,
    mapped: bool,
    withinBackdrop: bool,
    loc: Point,
    bob: Point,
    popupsAt: Point -> Option<TreeHit>,
    treeAt: Point -> Option<TreeHit>)

  // --- Workspaces -------------------------------------------------------------------------------

  datatype Workspace = Workspace(loc: Point, width: real, height: real)
  {
    predicate Spans(p: Point) { loc.y <= p.y < loc.y + height }
    predicate Contains(p: Point) { loc.x <= p.x < loc.x + width && Spans(p) }
  }

  // In the overview workspaces are zoomed out, and each by its own factor a little back in. While
  // the overview opens or closes the zoom is on its way; `overviewOpen` switches at once.
  datatype Monitor = Monitor(
    width: real,
    height: real,
    zoom: real,
    localZoom: nat -> real,
    gap: real,
    active: nat,                             // the active workspace
    renderIdx: real,                         // the one in the middle of the view, on its way there
    workspaces: nat,
    renderOrder: seq<nat>,                   // by depth
    renderAboveTopLayer: bool,
    overviewOpen: bool)
  {
    predicate InView(p: Point) { 0.0 <= p.x < width && 0.0 <= p.y < height }

    function WorkspaceAt(i: nat): Workspace {
      var step := height * zoom + gap;
      var y := i as real * step - renderIdx * step;
      var centerY := y + (height - height * zoom) / 2.0 + height * zoom / 2.0;
      var z := localZoom(i);
      Workspace(Point((width - width * z) / 2.0, centerY - height * z / 2.0), width * z, height * z)
    }

    // The last in the given order whose stripe of the output contains the point.
    function WorkspaceUnder(order: seq<nat>, p: Point): Option<Workspace>
      decreases order
    {
      if order == [] then None
      else
        var ws := WorkspaceAt(order[|order| - 1]);
        if 0.0 <= p.x < width && ws.Spans(p) then Some(ws)
        else WorkspaceUnder(order[..|order| - 1], p)
    }

    // Without zoom no workspace has one of its own, and a monitor renders above the top layer only
    // when it stands still on one workspace.
    ghost predicate Valid() {
      && width > 0.0 && height > 0.0 && zoom > 0.0 && gap >= 0.0
      && (forall i: nat :: localZoom(i) > 0.0 && (zoom == 1.0 ==> localZoom(i) == 1.0))
      && (forall i: nat :: i in renderOrder <==> i < workspaces)
      && (renderAboveTopLayer ==>
            !overviewOpen && zoom == 1.0 && active < workspaces && renderIdx == active as real)
    }

    // Layers below the windows are drawn where they take input.
    predicate Unzoomed() { overviewOpen || zoom == 1.0 }
  }

  // --- What receives input ----------------------------------------------------------------------

  // A window, and for a hit inside its input region the window's position.
  datatype WindowHit = WindowHit(window: Id, input: Option<Point>)

  datatype Output = Output(
    mon: Monitor,
    loc: Point,                              // in the global space
    modal: bool,                             // a dialog, the lock screen or the switcher is up
    layers: seq<LayerSurface>,               // bottommost first
    movedAt: Point -> Option<WindowHit>,     // the window being moved interactively
    windowAt: Point -> Option<WindowHit>,    // the windows of the workspaces
    windowTree: (Id, Point) -> Option<TreeHit>,
    hotCornerAt: Point -> bool)

  datatype Hit =
    | OnLayer(layer: Id, surface: Id, at: Point)
    | OnWindow(hit: WindowHit, inside: Option<TreeHit>)

  function HitTree(l: LayerSurface, popup: bool, q: Point): Option<TreeHit> {
    if popup then l.popupsAt(q) else l.treeAt(q)
  }

  // A layer surface placed at its own position plus an offset.
  function HitLayer(l: LayerSurface, popup: bool, offset: Point, p: Point): Option<Hit> {
    var pos := Plus(Plus(l.loc, l.bob), offset);
    var under := HitTree(l, popup, Minus(p, pos));
    if under.None? then None else Some(OnLayer(l.id, under.value.0, Plus(under.value.1, pos)))
  }

  function HitWindow(s: Output, under: Option<WindowHit>, p: Point): Option<Hit> {
    match under
    case None => None
    case Some(WindowHit(w, None)) => Some(OnWindow(under.value, None))
    case Some(WindowHit(w, Some(pos))) =>
      var inside := s.windowTree(w, Minus(p, pos));
      Some(OnWindow(under.value,
                    if inside.None? then None else Some((inside.value.0, Plus(inside.value.1, pos)))))
  }

  // The layers below the windows scroll along with the workspace under the point.
  function LayerOffset(s: Output, layer: Layer, p: Point): Option<Point> {
    if layer == Background || layer == Bottom then
      var ws := s.mon.WorkspaceUnder(s.mon.renderOrder, p);
      if ws.None? then None else Some(ws.value.loc)
    else Some(ORIGIN)
  }

  function TopmostHit(layers: seq<LayerSurface>, layer: Layer, popup: bool, offset: Point, p: Point): Option<Hit> {
    if layers == [] then None
    else
      var l := layers[|layers| - 1];
      var here := if l.layer == layer && l.mapped && !l.withinBackdrop then HitLayer(l, popup, offset, p) else None;
      OrElse(here, TopmostHit(layers[..|layers| - 1], layer, popup, offset, p))
  }

  function LayerUnder(s: Output, layer: Layer, popup: bool, p: Point): Option<Hit> {
    var offset := LayerOffset(s, layer, p);
    if offset.None? then None else TopmostHit(s.layers, layer, popup, offset.value, p)
  }

  function BothUnder(s: Output, layer: Layer, p: Point): Option<Hit> {
    OrElse(LayerUnder(s, layer, true, p), LayerUnder(s, layer, false, p))
  }

  function LowUnder(s: Output, popup: bool, p: Point): Option<Hit> {
    OrElse(LayerUnder(s, Bottom, popup, p), LayerUnder(s, Background, popup, p))
  }

  function MovedUnder(s: Output, p: Point): Option<Hit> { HitWindow(s, s.movedAt(p), p) }
  function WindowsUnder(s: Output, p: Point): Option<Hit> { HitWindow(s, s.windowAt(p), p) }

  predicate OnHotCorner(s: Output, p: Point) {
    !s.mon.renderAboveTopLayer && s.hotCornerAt(p)
  }

  function UnderAboveTop(s: Output, p: Point): Option<Hit> {
    OrElse(MovedUnder(s, p),
      OrElse(WindowsUnder(s, p),
        OrElse(BothUnder(s, Top, p), OrElse(LowUnder(s, true, p), LowUnder(s, false, p)))))
  }

  function UnderBelowTop(s: Output, p: Point): Option<Hit> {
    OrElse(BothUnder(s, Top, p),
      OrElse(MovedUnder(s, p),
        OrElse(if s.mon.overviewOpen then None else LowUnder(s, true, p),
          OrElse(WindowsUnder(s, p),
            if s.mon.overviewOpen then None else LowUnder(s, false, p)))))
  }

  // The contents under a point, hot corners aside.
  function Under(s: Output, p: Point): Option<Hit> {
    OrElse(BothUnder(s, Overlay, p),
      if s.mon.renderAboveTopLayer then UnderAboveTop(s, p) else UnderBelowTop(s, p))
  }

  datatype Contents = Contents(
    hotCorner: bool,
    surface: Option<TreeHit>,
    window: Option<WindowHit>,
    layer: Option<Id>)

  const NOTHING := Contents(false, None, None, None)

  // In the global space.
  function Shifted(s: Output, h: Option<TreeHit>): Option<TreeHit> {
    if h.None? then None else Some((h.value.0, Plus(h.value.1, s.loc)))
  }

  function AsContents(s: Output, h: Option<Hit>): Contents {
    match h
    case None => NOTHING
    case Some(OnLayer(l, f, at)) => Contents(false, Shifted(s, Some((f, at))), None, Some(l))
    case Some(OnWindow(w, inside)) => Contents(false, Shifted(s, inside), Some(w), None)
  }

  function ContentsUnder(s: Output, p: Point): Contents {
    if s.modal then NOTHING
    else if OnHotCorner(s, p) then NOTHING.(hotCorner := true)
    else AsContents(s, Under(s, p))
  }

  // --- Which window to activate -----------------------------------------------------------------

  predicate Obscures(l: LayerSurface, layer: Layer, popup: bool, p: Point) {
    l.layer == layer && l.mapped && HitLayer(l, popup, ORIGIN, p).Some?
  }

  // Looks at the layers above the windows only, and does not ask about the backdrop.
  predicate AnyHit(layers: seq<LayerSurface>, layer: Layer, popup: bool, p: Point) {
    exists i :: 0 <= i < |layers| && Obscures(layers[i], layer, popup, p)
  }

  predicate StickyObscured(s: Output, p: Point) {
    if AnyHit(s.layers, Overlay, true, p) || AnyHit(s.layers, Overlay, false, p) then true
    else if s.mon.renderAboveTopLayer then false
    else if s.hotCornerAt(p) then true
    else AnyHit(s.layers, Top, true, p) || AnyHit(s.layers, Top, false, p)
  }

  predicate LayoutObscured(s: Output, p: Point) {
    !s.mon.overviewOpen &&
    (LayerUnder(s, Bottom, true, p).Some? || LayerUnder(s, Background, true, p).Some?)
  }

  function WindowUnder(s: Output, p: Point): Option<WindowHit> {
    if s.modal || StickyObscured(s, p) then None
    else if s.movedAt(p).Some? then s.movedAt(p)
    else if LayoutObscured(s, p) then None
    else s.windowAt(p)
  }

  // --- What is drawn ----------------------------------------------------------------------------

  // Where surfaces of a layer are drawn: in place, or scaled down into a workspace and cropped to it.
  datatype Placement = InPlace | Within(ws: Workspace, zoom: real)
  {
    predicate Shows(p: Point) { Within? ==> ws.Contains(p) }

    function ToLayer(p: Point): Point
      requires Within? ==> zoom != 0.0
    {
      if Within? then Unscaled(Minus(p, ws.loc), zoom) else p
    }

    function FromLayer(q: Point): Point {
      if Within? then Plus(ws.loc, Scaled(q, zoom)) else q
    }
  }

  datatype Item =
    | LayerItem(l: LayerSurface, popups: bool, place: Placement)
    | MovedWindow
    | Windows

  // From the topmost down.
  function DrawLayer(layers: seq<LayerSurface>, layer: Layer, popups: bool, backdrop: bool,
                     place: Placement): seq<Item> {
    if layers == [] then []
    else
      var l := layers[|layers| - 1];
      (if l.layer == layer && l.mapped && l.withinBackdrop == backdrop then [LayerItem(l, popups, place)] else [])
      + DrawLayer(layers[..|layers| - 1], layer, popups, backdrop, place)
  }

  function DrawBoth(s: Output, layer: Layer, backdrop: bool): seq<Item> {
    DrawLayer(s.layers, layer, true, backdrop, InPlace) + DrawLayer(s.layers, layer, false, backdrop, InPlace)
  }

  function DrawLow(s: Output, popups: bool, place: Placement): seq<Item> {
    DrawLayer(s.layers, Bottom, popups, false, place) + DrawLayer(s.layers, Background, popups, false, place)
  }

  // Bottom and background layers are drawn once for every workspace.
  function DrawPerWorkspace(s: Output, popups: bool, n: nat): seq<Item>
    decreases n
  {
    if n == 0 then []
    else
      DrawPerWorkspace(s, popups, n - 1)
      + DrawLow(s, popups, Within(s.mon.WorkspaceAt(n - 1), s.mon.zoom))
  }

  function DrawAboveTop(s: Output): seq<Item> {
    [MovedWindow] + ([Windows] + (DrawBoth(s, Top, false) + (DrawLow(s, true, InPlace) + DrawLow(s, false, InPlace))))
  }

  function DrawBelowTop(s: Output): seq<Item> {
    DrawBoth(s, Top, false)
    + ([MovedWindow] + (DrawPerWorkspace(s, true, s.mon.workspaces)
    + ([Windows] + DrawPerWorkspace(s, false, s.mon.workspaces))))
  }

  // Everything drawn above the backdrop.
  function DrawnContents(s: Output): seq<Item> {
    DrawBoth(s, Overlay, false) + (if s.mon.renderAboveTopLayer then DrawAboveTop(s) else DrawBelowTop(s))
  }

  function DrawOrder(s: Output): seq<Item> {
    DrawnContents(s) + DrawBoth(s, Background, true)
  }

  // In the overview the layers below the windows do not take input, and the backdrop never does.
  predicate TakesInput(s: Output, item: Item) {
    item.LayerItem? ==> !item.l.withinBackdrop && LayerTakesInput(s, item.l.layer)
  }

  predicate LayerTakesInput(s: Output, layer: Layer) {
    s.mon.overviewOpen ==> layer != Bottom && layer != Background
  }

  function HitDrawn(l: LayerSurface, popups: bool, place: Placement, p: Point): Option<Hit> {
    if !place.Shows(p) || (place.Within? && place.zoom == 0.0) then None
    else
      var pos := Plus(l.loc, l.bob);
      var under := HitTree(l, popups, Minus(place.ToLayer(p), pos));
      if under.None? then None
      else Some(OnLayer(l.id, under.value.0, place.FromLayer(Plus(under.value.1, pos))))
  }

  function HitItem(s: Output, item: Item, p: Point): Option<Hit> {
    match item
    case LayerItem(l, popups, place) => HitDrawn(l, popups, place, p)
    case MovedWindow => HitWindow(s, s.movedAt(p), p)
    case Windows => HitWindow(s, s.windowAt(p), p)
  }

  // The topmost drawn item under the point that takes input.
  function FirstDrawn(s: Output, items: seq<Item>, p: Point): Option<Hit>
    decreases items
  {
    if items == [] then None
    else
      OrElse(if TakesInput(s, items[0]) then HitItem(s, items[0], p) else None,
             FirstDrawn(s, items[1..], p))
  }

  // The topmost drawn item under the point, whether it takes input or not.
  function FirstVisible(s: Output, items: seq<Item>, p: Point): Option<Hit>
    decreases items
  {
    if items == [] then None
    else OrElse(HitItem(s, items[0], p), FirstVisible(s, items[1..], p))
  }
}
