/**
 When input, activation and drawing agree.
 */
module HitTheorems {
  import opened Options
  import opened LayerShell
  import opened HitTesting

  // --- Parts of the draw order ------------------------------------------------------------------

  lemma {:induction false} FirstOfBoth(s: Output, a: seq<Item>, b: seq<Item>, p: Point)
    ensures FirstDrawn(s, a + b, p) == OrElse(FirstDrawn(s, a, p), FirstDrawn(s, b, p))
    decreases a
  {
    if a == [] {
      assert a + b == b;
    } else {
      assert (a + b)[1..] == a[1..] + b && (a + b)[0] == a[0];
      FirstOfBoth(s, a[1..], b, p);
    }
  }

  lemma {:induction false} FirstOfOne(s: Output, item: Item, p: Point)
    requires !item.LayerItem?
    ensures FirstDrawn(s, [item], p) == HitItem(s, item, p)
  {
    assert [item][1..] == [];
  }

  predicate IsUnscaled(place: Placement) {
    place.Within? ==> place.zoom == 1.0
  }

  function OffsetOf(place: Placement): Point {
    if place.Within? then place.ws.loc else ORIGIN
  }

  // Without zoom a surface is drawn where it takes input.
  lemma DrawnInPlace(l: LayerSurface, popups: bool, place: Placement, p: Point)
    requires IsUnscaled(place) && place.Shows(p)
    ensures HitDrawn(l, popups, place, p) == HitLayer(l, popups, OffsetOf(place), p)
  {
    var pos := Plus(l.loc, l.bob);
    assert Minus(place.ToLayer(p), pos) == Minus(p, Plus(pos, OffsetOf(place)));
    var under := HitTree(l, popups, Minus(p, Plus(pos, OffsetOf(place))));
    if under.Some? {
      assert place.FromLayer(Plus(under.value.1, pos)) == Plus(under.value.1, Plus(pos, OffsetOf(place)));
    }
  }

  lemma {:induction false} DrawnLayer(s: Output, layers: seq<LayerSurface>, layer: Layer, popups: bool,
                                      place: Placement, p: Point)
    requires IsUnscaled(place)
    ensures FirstDrawn(s, DrawLayer(layers, layer, popups, false, place), p) ==
            if LayerTakesInput(s, layer) && place.Shows(p)
            then TopmostHit(layers, layer, popups, OffsetOf(place), p) else None
    decreases layers
  {
    if layers != [] {
      var l := layers[|layers| - 1];
      var rest := layers[..|layers| - 1];
      DrawnLayer(s, rest, layer, popups, place, p);
      if place.Shows(p) { DrawnInPlace(l, popups, place, p); }
      var items := DrawLayer(rest, layer, popups, false, place);
      if l.layer == layer && l.mapped && !l.withinBackdrop {
        var item := LayerItem(l, popups, place);
        assert ([item] + items)[0] == item && ([item] + items)[1..] == items;
      } else {
        assert [] + items == items;
      }
    }
  }

  lemma {:induction false} DrawnBackdrop(s: Output, layers: seq<LayerSurface>, popups: bool, p: Point)
    ensures FirstDrawn(s, DrawLayer(layers, Background, popups, true, InPlace), p) == None
    decreases layers
  {
    if layers != [] {
      var l := layers[|layers| - 1];
      var rest := layers[..|layers| - 1];
      DrawnBackdrop(s, rest, popups, p);
      var items := DrawLayer(rest, Background, popups, true, InPlace);
      var item := LayerItem(l, popups, InPlace);
      assert ([item] + items)[0] == item && ([item] + items)[1..] == items;
      assert [] + items == items;
    }
  }

  lemma {:induction false} BackdropTakesNothing(s: Output, p: Point)
    ensures FirstDrawn(s, DrawBoth(s, Background, true), p) == None
  {
    DrawnBackdrop(s, s.layers, true, p);
    DrawnBackdrop(s, s.layers, false, p);
    FirstOfBoth(s, DrawLayer(s.layers, Background, true, true, InPlace),
                   DrawLayer(s.layers, Background, false, true, InPlace), p);
  }

  lemma {:induction false} DrawnBoth(s: Output, layer: Layer, p: Point)
    requires layer == Overlay || layer == Top
    ensures FirstDrawn(s, DrawBoth(s, layer, false), p) == BothUnder(s, layer, p)
  {
    DrawnLayer(s, s.layers, layer, true, InPlace, p);
    DrawnLayer(s, s.layers, layer, false, InPlace, p);
    FirstOfBoth(s, DrawLayer(s.layers, layer, true, false, InPlace),
                   DrawLayer(s.layers, layer, false, false, InPlace), p);
  }

  function LowHit(s: Output, popups: bool, offset: Point, p: Point): Option<Hit> {
    OrElse(TopmostHit(s.layers, Bottom, popups, offset, p), TopmostHit(s.layers, Background, popups, offset, p))
  }

  lemma {:induction false} DrawnLow(s: Output, popups: bool, place: Placement, p: Point)
    requires IsUnscaled(place)
    ensures FirstDrawn(s, DrawLow(s, popups, place), p) ==
            if !s.mon.overviewOpen && place.Shows(p) then LowHit(s, popups, OffsetOf(place), p) else None
  {
    DrawnLayer(s, s.layers, Bottom, popups, place, p);
    DrawnLayer(s, s.layers, Background, popups, place, p);
    FirstOfBoth(s, DrawLayer(s.layers, Bottom, popups, false, place),
                   DrawLayer(s.layers, Background, popups, false, place), p);
  }

  // --- Workspaces without zoom ------------------------------------------------------------------

  lemma FillsTheView(m: Monitor, i: nat)
    requires m.Valid() && m.zoom == 1.0
    ensures m.WorkspaceAt(i).loc.x == 0.0 && m.WorkspaceAt(i).width == m.width && m.WorkspaceAt(i).height == m.height
    ensures m.WorkspaceAt(i).loc.y == i as real * (m.height + m.gap) - m.renderIdx * (m.height + m.gap)
  {
    assert m.localZoom(i) == 1.0;
    assert m.height * m.zoom + m.gap == m.height + m.gap;
  }

  lemma StepsApart(m: Monitor, i: nat, j: nat)
    requires m.Valid() && m.zoom == 1.0 && i < j
    ensures m.WorkspaceAt(i).loc.y + m.height <= m.WorkspaceAt(j).loc.y
  {
    FillsTheView(m, i);
    FillsTheView(m, j);
    Apart(i as real, j as real, m.height + m.gap, m.height, m.renderIdx * (m.height + m.gap),
          m.WorkspaceAt(i).loc.y, m.WorkspaceAt(j).loc.y);
  }

  lemma Apart(i: real, j: real, step: real, height: real, shift: real, y: real, y': real)
    requires i + 1.0 <= j && 0.0 <= height <= step && y == i * step - shift && y' == j * step - shift
    ensures y + height <= y'
  {
    var more := (j - i) * step;
    assert more == j * step - i * step;
    assert y' - y == more;
    AtLeast(j - i, step, more);
  }

  lemma AtLeast(k: real, step: real, more: real)
    requires k >= 1.0 && step >= 0.0 && more == k * step
    ensures more >= step
  {
    var rest := (k - 1.0) * step;
    assert rest >= 0.0;
    assert rest == k * step - step;
  }

  // Without zoom at most one workspace spans a point.
  lemma OneSpans(m: Monitor, i: nat, j: nat, p: Point)
    requires m.Valid() && m.zoom == 1.0 && m.WorkspaceAt(i).Spans(p) && m.WorkspaceAt(j).Spans(p)
    ensures i == j
  {
    FillsTheView(m, i);
    FillsTheView(m, j);
    if i < j { StepsApart(m, i, j); }
    if j < i { StepsApart(m, j, i); }
  }

  lemma {:induction false} FoundUnder(m: Monitor, order: seq<nat>, i: nat, p: Point)
    requires m.Valid() && m.zoom == 1.0 && m.InView(p) && m.WorkspaceAt(i).Spans(p)
    ensures m.WorkspaceUnder(order, p) == if i in order then Some(m.WorkspaceAt(i)) else None
    decreases order
  {
    if order != [] {
      var last := order[|order| - 1];
      var rest := order[..|order| - 1];
      assert order == rest + [last];
      if m.WorkspaceAt(last).Spans(p) {
        OneSpans(m, i, last, p);
      } else {
        FoundUnder(m, rest, i, p);
      }
    }
  }

  lemma {:induction false} NoneUnder(m: Monitor, order: seq<nat>, p: Point)
    requires forall i :: i in order ==> !m.WorkspaceAt(i).Spans(p)
    ensures m.WorkspaceUnder(order, p) == None
    decreases order
  {
    if order != [] {
      assert order[|order| - 1] in order;
      NoneUnder(m, order[..|order| - 1], p);
    }
  }

  // Of the copies drawn for the workspaces, at most the one of the workspace that spans the point
  // is hit.
  lemma {:induction false} DrawnPerWorkspace(s: Output, popups: bool, n: nat, i: nat, p: Point)
    requires s.mon.Valid() && s.mon.zoom == 1.0 && s.mon.InView(p) && s.mon.WorkspaceAt(i).Spans(p)
    ensures FirstDrawn(s, DrawPerWorkspace(s, popups, n), p) ==
            if !s.mon.overviewOpen && i < n then LowHit(s, popups, s.mon.WorkspaceAt(i).loc, p) else None
    decreases n
  {
    if n > 0 {
      var ws := s.mon.WorkspaceAt(n - 1);
      var place := Within(ws, s.mon.zoom);
      DrawnPerWorkspace(s, popups, n - 1, i, p);
      DrawnLow(s, popups, place, p);
      FirstOfBoth(s, DrawPerWorkspace(s, popups, n - 1), DrawLow(s, popups, place), p);
      FillsTheView(s.mon, n - 1);
      if ws.Contains(p) { OneSpans(s.mon, i, n - 1, p); }
    }
  }

  lemma {:induction false} NoneDrawn(s: Output, popups: bool, n: nat, p: Point)
    requires s.mon.zoom == 1.0 && forall i :: 0 <= i < n ==> !s.mon.WorkspaceAt(i).Spans(p)
    ensures FirstDrawn(s, DrawPerWorkspace(s, popups, n), p) == None
    decreases n
  {
    if n > 0 {
      var place := Within(s.mon.WorkspaceAt(n - 1), s.mon.zoom);
      NoneDrawn(s, popups, n - 1, p);
      DrawnLow(s, popups, place, p);
      FirstOfBoth(s, DrawPerWorkspace(s, popups, n - 1), DrawLow(s, popups, place), p);
    }
  }

  // In the overview none of them takes input, at any zoom.
  lemma {:induction false} NoneTakesInput(s: Output, items: seq<Item>, p: Point)
    requires forall i :: 0 <= i < |items| ==> !TakesInput(s, items[i])
    ensures FirstDrawn(s, items, p) == None
    decreases items
  {
    if items != [] { NoneTakesInput(s, items[1..], p); }
  }

  lemma {:induction false} LowTakesNoInput(s: Output, layers: seq<LayerSurface>, layer: Layer, popups: bool,
                                           place: Placement)
    requires s.mon.overviewOpen && layer in {Bottom, Background}
    ensures forall i :: 0 <= i < |DrawLayer(layers, layer, popups, false, place)| ==>
              !TakesInput(s, DrawLayer(layers, layer, popups, false, place)[i])
    decreases layers
  {
    if layers != [] { LowTakesNoInput(s, layers[..|layers| - 1], layer, popups, place); }
  }

  lemma {:induction false} NoneInOverview(s: Output, popups: bool, n: nat, p: Point)
    requires s.mon.overviewOpen
    ensures FirstDrawn(s, DrawPerWorkspace(s, popups, n), p) == None
    decreases n
  {
    if n > 0 {
      var place := Within(s.mon.WorkspaceAt(n - 1), s.mon.zoom);
      NoneInOverview(s, popups, n - 1, p);
      LowTakesNoInput(s, s.layers, Bottom, popups, place);
      LowTakesNoInput(s, s.layers, Background, popups, place);
      NoneTakesInput(s, DrawLow(s, popups, place), p);
      FirstOfBoth(s, DrawPerWorkspace(s, popups, n - 1), DrawLow(s, popups, place), p);
    }
  }

  lemma {:induction false} DrawnWorkspaces(s: Output, popups: bool, p: Point)
    requires s.mon.Valid() && s.mon.Unzoomed() && s.mon.InView(p)
    ensures FirstDrawn(s, DrawPerWorkspace(s, popups, s.mon.workspaces), p) ==
            if s.mon.overviewOpen then None else LowUnder(s, popups, p)
  {
    var m := s.mon;
    if m.overviewOpen {
      NoneInOverview(s, popups, m.workspaces, p);
    } else if i: nat :| i < m.workspaces && m.WorkspaceAt(i).Spans(p) {
      DrawnPerWorkspace(s, popups, m.workspaces, i, p);
      FoundUnder(m, m.renderOrder, i, p);
    } else {
      NoneDrawn(s, popups, m.workspaces, p);
      NoneUnder(m, m.renderOrder, p);
    }
  }

  // --- The whole draw order ---------------------------------------------------------------------

  // A monitor that stands still shows one workspace, in place.
  lemma {:induction false} StandsStill(m: Monitor, p: Point)
    requires m.Valid() && m.renderAboveTopLayer && m.InView(p)
    ensures m.WorkspaceUnder(m.renderOrder, p).Some? && m.WorkspaceUnder(m.renderOrder, p).value.loc == ORIGIN
  {
    FillsTheView(m, m.active);
    FoundUnder(m, m.renderOrder, m.active, p);
  }

  lemma {:induction false} DrawnAbove(s: Output, p: Point)
    requires s.mon.Valid() && s.mon.renderAboveTopLayer && s.mon.InView(p)
    ensures FirstDrawn(s, DrawAboveTop(s), p) == UnderAboveTop(s, p)
  {
    var low := DrawLow(s, true, InPlace) + DrawLow(s, false, InPlace);
    var top := DrawBoth(s, Top, false) + low;
    StandsStill(s.mon, p);
    DrawnLow(s, true, InPlace, p);
    DrawnLow(s, false, InPlace, p);
    FirstOfBoth(s, DrawLow(s, true, InPlace), DrawLow(s, false, InPlace), p);
    DrawnBoth(s, Top, p);
    FirstOfBoth(s, DrawBoth(s, Top, false), low, p);
    FirstOfOne(s, Windows, p);
    FirstOfBoth(s, [Windows], top, p);
    FirstOfOne(s, MovedWindow, p);
    FirstOfBoth(s, [MovedWindow], [Windows] + top, p);
  }

  lemma {:induction false} DrawnBelow(s: Output, p: Point)
    requires s.mon.Valid() && s.mon.Unzoomed() && s.mon.InView(p)
    ensures FirstDrawn(s, DrawBelowTop(s), p) == UnderBelowTop(s, p)
  {
    var low := DrawPerWorkspace(s, false, s.mon.workspaces);
    var windows := [Windows] + low;
    var popups := DrawPerWorkspace(s, true, s.mon.workspaces) + windows;
    DrawnWorkspaces(s, true, p);
    DrawnWorkspaces(s, false, p);
    FirstOfOne(s, Windows, p);
    FirstOfBoth(s, [Windows], low, p);
    FirstOfBoth(s, DrawPerWorkspace(s, true, s.mon.workspaces), windows, p);
    FirstOfOne(s, MovedWindow, p);
    FirstOfBoth(s, [MovedWindow], popups, p);
    DrawnBoth(s, Top, p);
    FirstOfBoth(s, DrawBoth(s, Top, false), [MovedWindow] + popups, p);
  }

  // What receives input is the topmost drawn item under the point that takes input.
  lemma {:induction false} UnderIsFirstDrawn(s: Output, p: Point)
    requires s.mon.Valid() && s.mon.Unzoomed() && s.mon.InView(p)
    ensures Under(s, p) == FirstDrawn(s, DrawOrder(s), p)
  {
    if s.mon.renderAboveTopLayer { DrawnAbove(s, p); } else { DrawnBelow(s, p); }
    DrawnBoth(s, Overlay, p);
    FirstOfBoth(s, DrawBoth(s, Overlay, false),
                if s.mon.renderAboveTopLayer then DrawAboveTop(s) else DrawBelowTop(s), p);
    BackdropTakesNothing(s, p);
    FirstOfBoth(s, DrawnContents(s), DrawBoth(s, Background, true), p);
  }

  // --- Zoomed workspaces ------------------------------------------------------------------------

  ghost predicate IsWorkspace(m: Monitor, ws: Workspace, n: nat) {
    exists i :: 0 <= i < n && ws == m.WorkspaceAt(i)
  }

  // Drawn zoomed into one of the first n workspaces, or on a layer that is not drawn so.
  ghost predicate Placed(items: seq<Item>, m: Monitor, n: nat) {
    forall i :: 0 <= i < |items| && items[i].LayerItem? ==>
      if items[i].place.Within? then items[i].place.zoom == m.zoom && IsWorkspace(m, items[i].place.ws, n)
      else items[i].l.layer in {Top, Overlay} || items[i].l.withinBackdrop
  }

  ghost predicate DrawsOnly(items: seq<Item>, l: LayerSurface) {
    forall i :: 0 <= i < |items| && items[i].LayerItem? ==> items[i].l == l
  }

  lemma {:induction false} DrawnOf(l: LayerSurface, layer: Layer, popups: bool, backdrop: bool, place: Placement)
    ensures DrawLayer([l], layer, popups, backdrop, place) ==
            if l.layer == layer && l.mapped && l.withinBackdrop == backdrop then [LayerItem(l, popups, place)] else []
  {
    assert [l][..0] == [];
  }

  lemma {:induction false} PerWorkspacePlaced(s: Output, l: LayerSurface, popups: bool, n: nat)
    requires s.layers == [l] && n <= s.mon.workspaces
    ensures Placed(DrawPerWorkspace(s, popups, n), s.mon, s.mon.workspaces)
    ensures DrawsOnly(DrawPerWorkspace(s, popups, n), l)
    decreases n
  {
    if n > 0 {
      var place := Within(s.mon.WorkspaceAt(n - 1), s.mon.zoom);
      PerWorkspacePlaced(s, l, popups, n - 1);
      DrawnOf(l, Bottom, popups, false, place);
      DrawnOf(l, Background, popups, false, place);
      assert IsWorkspace(s.mon, place.ws, s.mon.workspaces);
    }
  }

  lemma BothPlaced(s: Output, l: LayerSurface, layer: Layer, backdrop: bool)
    requires s.layers == [l] && (layer in {Top, Overlay} || backdrop)
    ensures Placed(DrawBoth(s, layer, backdrop), s.mon, s.mon.workspaces)
    ensures DrawsOnly(DrawBoth(s, layer, backdrop), l)
  {
    DrawnOf(l, layer, true, backdrop, InPlace);
    DrawnOf(l, layer, false, backdrop, InPlace);
  }

  ghost predicate Known(items: seq<Item>, m: Monitor, l: LayerSurface) {
    Placed(items, m, m.workspaces) && DrawsOnly(items, l)
  }

  lemma KnownOfBoth(a: seq<Item>, b: seq<Item>, m: Monitor, l: LayerSurface)
    requires Known(a, m, l) && Known(b, m, l)
    ensures Known(a + b, m, l)
  {
  }

  lemma BelowTopPlaced(s: Output, l: LayerSurface)
    requires s.layers == [l]
    ensures Known(DrawBelowTop(s), s.mon, l)
  {
    var popups, low := DrawPerWorkspace(s, true, s.mon.workspaces), DrawPerWorkspace(s, false, s.mon.workspaces);
    PerWorkspacePlaced(s, l, true, s.mon.workspaces);
    PerWorkspacePlaced(s, l, false, s.mon.workspaces);
    BothPlaced(s, l, Top, false);
    KnownOfBoth([Windows], low, s.mon, l);
    KnownOfBoth(popups, [Windows] + low, s.mon, l);
    KnownOfBoth([MovedWindow], popups + ([Windows] + low), s.mon, l);
    KnownOfBoth(DrawBoth(s, Top, false), [MovedWindow] + (popups + ([Windows] + low)), s.mon, l);
  }

  lemma DrawOrderPlaced(s: Output, l: LayerSurface)
    requires s.layers == [l] && !s.mon.renderAboveTopLayer
    ensures Known(DrawOrder(s), s.mon, l)
  {
    BelowTopPlaced(s, l);
    BothPlaced(s, l, Overlay, false);
    KnownOfBoth(DrawBoth(s, Overlay, false), DrawBelowTop(s), s.mon, l);
    BothPlaced(s, l, Background, true);
    KnownOfBoth(DrawnContents(s), DrawBoth(s, Background, true), s.mon, l);
  }

  ghost predicate OnlyLayer(s: Output, l: LayerSurface) {
    s.layers == [l] && (forall q :: s.movedAt(q) == None) && (forall q :: s.windowAt(q) == None)
  }

  lemma NotOnLayer(s: Output, l: LayerSurface, layer: Layer, popup: bool, p: Point)
    requires s.layers == [l] && l.layer != layer
    ensures LayerUnder(s, layer, popup, p) == None
  {
    var offset := LayerOffset(s, layer, p);
    if offset.Some? { HitOf(l, layer, popup, offset.value, p); }
  }

  lemma OnBottom(s: Output, l: LayerSurface, offset: Point, p: Point)
    requires s.layers == [l] && l.layer == Bottom && l.mapped && !l.withinBackdrop
    requires LayerOffset(s, Bottom, p) == Some(offset)
    ensures LayerUnder(s, Bottom, true, p) == HitLayer(l, true, offset, p)
    ensures LayerUnder(s, Bottom, false, p) == HitLayer(l, false, offset, p)
  {
    HitOf(l, Bottom, true, offset, p);
    HitOf(l, Bottom, false, offset, p);
  }

  lemma NothingAbove(s: Output, l: LayerSurface, p: Point)
    requires OnlyLayer(s, l) && l.layer == Bottom
    ensures BothUnder(s, Overlay, p) == None && BothUnder(s, Top, p) == None
    ensures MovedUnder(s, p) == None && WindowsUnder(s, p) == None
  {
    NotOnLayer(s, l, Overlay, true, p);
    NotOnLayer(s, l, Overlay, false, p);
    NotOnLayer(s, l, Top, true, p);
    NotOnLayer(s, l, Top, false, p);
  }

  lemma NothingButBottom(s: Output, l: LayerSurface, popup: bool, p: Point)
    requires s.layers == [l] && l.layer == Bottom
    ensures LowUnder(s, popup, p) == LayerUnder(s, Bottom, popup, p)
  {
    NotOnLayer(s, l, Background, popup, p);
  }

  lemma OnlyLayerUnder(s: Output, l: LayerSurface, offset: Point, p: Point, h: Hit)
    requires OnlyLayer(s, l) && l.layer == Bottom && l.mapped && !l.withinBackdrop
    requires !s.mon.overviewOpen && !s.mon.renderAboveTopLayer && LayerOffset(s, Bottom, p) == Some(offset)
    requires HitLayer(l, true, offset, p) == None && HitLayer(l, false, offset, p) == Some(h)
    ensures Under(s, p) == Some(h)
  {
    LowIs(s, l, offset, p, h);
    NothingAbove(s, l, p);
    OnlyLow(s, p, BothUnder(s, Overlay, p), BothUnder(s, Top, p), LowUnder(s, true, p), LowUnder(s, false, p), h);
  }

  lemma LowIs(s: Output, l: LayerSurface, offset: Point, p: Point, h: Hit)
    requires s.layers == [l] && l.layer == Bottom && l.mapped && !l.withinBackdrop
    requires LayerOffset(s, Bottom, p) == Some(offset)
    requires HitLayer(l, true, offset, p) == None && HitLayer(l, false, offset, p) == Some(h)
    ensures LowUnder(s, true, p) == None && LowUnder(s, false, p) == Some(h)
  {
    NothingButBottom(s, l, true, p);
    NothingButBottom(s, l, false, p);
    OnBottom(s, l, offset, p);
  }

  lemma OnlyLow(s: Output, p: Point, overlay: Option<Hit>, top: Option<Hit>, popups: Option<Hit>, low: Option<Hit>,
                h: Hit)
    requires overlay == BothUnder(s, Overlay, p) == None && top == BothUnder(s, Top, p) == None
    requires popups == LowUnder(s, true, p) == None && low == LowUnder(s, false, p) == Some(h)
    requires MovedUnder(s, p) == None && WindowsUnder(s, p) == None
    requires !s.mon.overviewOpen && !s.mon.renderAboveTopLayer
    ensures Under(s, p) == Some(h)
  {
  }

  lemma {:induction false} HitOf(l: LayerSurface, layer: Layer, popup: bool, offset: Point, p: Point)
    ensures TopmostHit([l], layer, popup, offset, p) ==
            if l.layer == layer && l.mapped && !l.withinBackdrop then HitLayer(l, popup, offset, p) else None
  {
    assert [l][..0] == [];
  }

  // A surface of the bottom layer without popups, at the origin.
  ghost predicate Plain(l: LayerSurface) {
    && l.layer == Bottom && l.mapped && !l.withinBackdrop && l.loc == ORIGIN && l.bob == ORIGIN
    && forall q :: l.popupsAt(q) == None
  }

  lemma PlainHit(l: LayerSurface, f: Id, offset: Point, p: Point)
    requires Plain(l) && l.treeAt(Minus(p, offset)) == Some((f, ORIGIN))
    ensures HitLayer(l, true, offset, p) == None
    ensures HitLayer(l, false, offset, p) == Some(OnLayer(l.id, f, offset))
  {
    assert Plus(Plus(l.loc, l.bob), offset) == offset;
    assert Plus(ORIGIN, offset) == offset;
  }

  // Where a point is looked up in the copy drawn for a workspace.
  function LookedUp(m: Monitor, i: nat, p: Point): Point
    requires m.zoom != 0.0
  {
    Unscaled(Minus(p, m.WorkspaceAt(i).loc), m.zoom)
  }

  ghost predicate MissedEverywhere(m: Monitor, l: LayerSurface, p: Point)
    requires m.zoom != 0.0
  {
    forall i :: 0 <= i < m.workspaces ==> l.treeAt(LookedUp(m, i, p)) == None
  }

  lemma ItemMisses(s: Output, l: LayerSurface, item: Item, p: Point)
    requires s.mon.zoom != 0.0 && OnlyLayer(s, l) && Plain(l) && MissedEverywhere(s.mon, l, p)
    requires item.LayerItem? ==> item.l == l && item.place.Within? && item.place.zoom == s.mon.zoom
    requires item.LayerItem? ==> IsWorkspace(s.mon, item.place.ws, s.mon.workspaces)
    ensures HitItem(s, item, p) == None
  {
    if item.LayerItem? {
      var i :| 0 <= i < s.mon.workspaces && item.place.ws == s.mon.WorkspaceAt(i);
      assert item.place.ToLayer(p) == LookedUp(s.mon, i, p);
      assert Minus(LookedUp(s.mon, i, p), Plus(l.loc, l.bob)) == LookedUp(s.mon, i, p);
    }
  }

  lemma {:induction false} NothingDrawn(s: Output, items: seq<Item>, p: Point)
    requires forall i :: 0 <= i < |items| ==> HitItem(s, items[i], p) == None
    ensures FirstDrawn(s, items, p) == None
    decreases items
  {
    if items != [] { NothingDrawn(s, items[1..], p); }
  }

  lemma {:induction false} NotDrawn(s: Output, l: LayerSurface, p: Point)
    requires !s.mon.renderAboveTopLayer && s.mon.zoom != 0.0
    requires OnlyLayer(s, l) && Plain(l) && MissedEverywhere(s.mon, l, p)
    ensures FirstDrawn(s, DrawOrder(s), p) == None
  {
    var items := DrawOrder(s);
    DrawOrderPlaced(s, l);
    forall i | 0 <= i < |items| ensures HitItem(s, items[i], p) == None {
      ItemMisses(s, l, items[i], p);
    }
    NothingDrawn(s, items, p);
  }

  // --- When drawing and input agree -------------------------------------------------------------

  // The same surface or window, wherever it is reported to be.
  predicate SameTarget(a: Option<Hit>, b: Option<Hit>) {
    && a.Some? == b.Some?
    && (a.Some? ==>
          match (a.value, b.value)
          case (OnLayer(l, f, _), OnLayer(l', f', _)) => l == l' && f == f'
          case (OnWindow(h, _), OnWindow(h', _)) => h == h'
          case _ => false)
  }

  ghost predicate Agrees(s: Output, p: Point) {
    SameTarget(Under(s, p), FirstDrawn(s, DrawOrder(s), p))
  }

  ghost predicate AlwaysAgrees(m: Monitor) {
    forall s: Output, p: Point :: s.mon == m && m.InView(p) ==> Agrees(s, p)
  }

  // A monitor with a workspace in view shows everything where it takes input, whatever is on it,
  // exactly when the overview is open or nothing is zoomed.
  lemma {:induction false} AgreesExactlyWhen(m: Monitor, p: Point)
    requires m.Valid() && m.InView(p) && m.WorkspaceUnder(m.renderOrder, p).Some?
    ensures AlwaysAgrees(m) <==> m.Unzoomed()
  {
    if m.Unzoomed() {
      forall s: Output, q: Point | s.mon == m && m.InView(q) ensures Agrees(s, q) {
        UnderIsFirstDrawn(s, q);
      }
    } else {
      var s, q := Misplaced(m, p);
      assert !Agrees(s, q);
    }
  }

  // An output with one surface, which takes input at a point where nothing is drawn.
  lemma {:induction false} Misplaced(m: Monitor, p: Point) returns (s: Output, q: Point)
    requires m.Valid() && !m.Unzoomed() && m.InView(p) && m.WorkspaceUnder(m.renderOrder, p).Some?
    ensures s.mon == m && m.InView(q) && Under(s, q).Some? && FirstDrawn(s, DrawOrder(s), q) == None
  {
    var offset := m.WorkspaceUnder(m.renderOrder, p).value.loc;
    var x := SafeX(m, offset.x);
    q := Point(x, p.y);
    SameStripe(m, m.renderOrder, p, q);
    var l := Slit(x - offset.x);
    s := Showing(m, l);
    PlainHit(l, 0, offset, q);
    OnlyLayerUnder(s, l, offset, q, OnLayer(l.id, 0, offset));
    SlitMissed(m, offset.x, q);
    NotDrawn(s, l, q);
  }

  lemma {:induction false} SameStripe(m: Monitor, order: seq<nat>, p: Point, q: Point)
    requires p.y == q.y && 0.0 <= p.x < m.width && 0.0 <= q.x < m.width
    ensures m.WorkspaceUnder(order, p) == m.WorkspaceUnder(order, q)
    decreases order
  {
    if order != [] { SameStripe(m, order[..|order| - 1], p, q); }
  }

  // A surface that is hit on one vertical line only.
  function Slit(x: real): LayerSurface {
    LayerSurface(0, Bottom, true, false, ORIGIN, ORIGIN, _ => None, (q: Point) => SlitAt(x, q))
  }

  function SlitAt(x: real, q: Point): Option<TreeHit> {
    if q.x == x then Some((0, ORIGIN)) else None
  }

  function Showing(m: Monitor, l: LayerSurface): Output {
    Output(m, ORIGIN, false, [l], _ => None, _ => None, (_, _) => None, _ => false)
  }

  // Where the copy drawn for a workspace would be hit at the same x as the input.
  function Coincidence(zoom: real, start: real, offset: real): real
    requires zoom != 1.0
  {
    (start - zoom * offset) / (1.0 - zoom)
  }

  // Smaller than every positive coincidence.
  function BelowCoincidences(m: Monitor, offset: real, n: nat): (x: real)
    requires m.zoom != 1.0 && m.width > 0.0
    ensures 0.0 < x <= m.width
    ensures forall i :: 0 <= i < n ==>
              var c := Coincidence(m.zoom, m.WorkspaceAt(i).loc.x, offset); c > 0.0 ==> x <= c
  {
    if n == 0 then m.width
    else
      var rest := BelowCoincidences(m, offset, n - 1);
      var c := Coincidence(m.zoom, m.WorkspaceAt(n - 1).loc.x, offset);
      if 0.0 < c < rest then c else rest
  }

  function SafeX(m: Monitor, offset: real): real
    requires m.zoom != 1.0 && m.width > 0.0
  {
    BelowCoincidences(m, offset, m.workspaces) / 2.0
  }

  lemma NoCoincidence(x: real, start: real, offset: real, zoom: real)
    requires zoom != 0.0 && zoom != 1.0 && x != Coincidence(zoom, start, offset)
    ensures (x - start) / zoom != x - offset
  {
    if (x - start) / zoom == x - offset {
      assert x - start == zoom * (x - offset);
      assert x * (1.0 - zoom) == start - zoom * offset;
      Divided(x, 1.0 - zoom, start - zoom * offset);
    }
  }

  lemma Divided(x: real, d: real, k: real)
    requires d != 0.0 && x * d == k
    ensures k / d == x
  {
    assert (k / d) * d == k;
    assert (k / d - x) * d == 0.0;
  }

  lemma SlitMissed(m: Monitor, offset: real, q: Point)
    requires m.zoom != 0.0 && m.zoom != 1.0 && m.width > 0.0 && q.x == SafeX(m, offset)
    ensures MissedEverywhere(m, Slit(q.x - offset), q)
  {
    forall i | 0 <= i < m.workspaces ensures Slit(q.x - offset).treeAt(LookedUp(m, i, q)) == None {
      NoCoincidence(q.x, m.WorkspaceAt(i).loc.x, offset, m.zoom);
    }
  }

  // --- A closing overview -----------------------------------------------------------------------

  // One workspace at half the size, in the middle of an output 1000 wide, with the overview closed.
  function ClosingMonitor(): Monitor {
    Monitor(1000.0, 1000.0, 0.5, _ => 0.5, 10.0, 0, 0.0, 1, [0], false, false)
  }

  // A surface of the bottom layer, 100 wide, at the left.
  function Bar(f: Id): LayerSurface {
    LayerSurface(0, Bottom, true, false, ORIGIN, ORIGIN, _ => None, (q: Point) => BarAt(f, q))
  }

  function BarAt(f: Id, q: Point): Option<TreeHit> {
    if 0.0 <= q.x < 100.0 then Some((f, ORIGIN)) else None
  }

  lemma {:induction false} ClosingMonitorShowsHalf(m: Monitor, p: Point)
    requires m == ClosingMonitor()
    ensures m.Valid() && m.WorkspaceAt(0) == Workspace(Point(250.0, 250.0), 500.0, 500.0)
    ensures m.InView(p) && 250.0 <= p.y < 750.0 ==>
              m.WorkspaceUnder(m.renderOrder, p) == Some(m.WorkspaceAt(0))
  {
    assert m.renderOrder[..0] == [];
  }

  // While the overview closes, the bar is drawn from 250 to 300, and takes input from 250 to 350.
  lemma {:induction false} ClosingOverviewMisplacesInput(f: Id, p: Point)
    requires 300.0 <= p.x < 350.0 && 250.0 <= p.y < 750.0
    ensures var s := Showing(ClosingMonitor(), Bar(f));
            && s.mon.Valid() && s.mon.InView(p) && !s.mon.overviewOpen
            && Under(s, p) == Some(OnLayer(0, f, Point(250.0, 250.0)))
            && FirstDrawn(s, DrawOrder(s), p) == None
  {
    var m, l := ClosingMonitor(), Bar(f);
    ClosingMonitorShowsHalf(m, p);
    BarMissed(m, l, f, p);
    BarMisplaced(Showing(m, l), l, f, Point(250.0, 250.0), p);
  }

  lemma {:induction false} BarMisplaced(s: Output, l: LayerSurface, f: Id, offset: Point, p: Point)
    requires OnlyLayer(s, l) && Plain(l) && l.id == 0 && l.treeAt(Minus(p, offset)) == Some((f, ORIGIN))
    requires s.mon.zoom != 0.0 && !s.mon.overviewOpen && !s.mon.renderAboveTopLayer
    requires LayerOffset(s, Bottom, p) == Some(offset) && MissedEverywhere(s.mon, l, p)
    ensures Under(s, p) == Some(OnLayer(0, f, offset))
    ensures FirstDrawn(s, DrawOrder(s), p) == None
  {
    BarTakesInput(s, l, f, offset, p);
    NotDrawn(s, l, p);
  }

  lemma BarMissed(m: Monitor, l: LayerSurface, f: Id, p: Point)
    requires m.zoom == 0.5 && m.workspaces == 1 && p.x - m.WorkspaceAt(0).loc.x >= 50.0
    requires forall q :: l.treeAt(q) == BarAt(f, q)
    ensures MissedEverywhere(m, l, p)
  {
    var q := LookedUp(m, 0, p);
    assert q.x == (p.x - m.WorkspaceAt(0).loc.x) / 0.5;
    assert l.treeAt(q) == BarAt(f, q) == None;
  }

  lemma BarTakesInput(s: Output, l: LayerSurface, f: Id, offset: Point, p: Point)
    requires OnlyLayer(s, l) && Plain(l) && l.id == 0 && !s.mon.overviewOpen && !s.mon.renderAboveTopLayer
    requires l.treeAt(Minus(p, offset)) == Some((f, ORIGIN)) && LayerOffset(s, Bottom, p) == Some(offset)
    ensures Under(s, p) == Some(OnLayer(0, f, offset))
  {
    PlainHit(l, f, offset, p);
    OnlyLayerUnder(s, l, offset, p, OnLayer(0, f, offset));
  }

  // --- What is seen -----------------------------------------------------------------------------

  lemma {:induction false} VisibleOfBoth(s: Output, a: seq<Item>, b: seq<Item>, p: Point)
    requires forall i :: 0 <= i < |a| ==> TakesInput(s, a[i])
    ensures FirstVisible(s, a + b, p) == OrElse(FirstDrawn(s, a, p), FirstVisible(s, b, p))
    decreases a
  {
    if a == [] {
      assert a + b == b;
    } else {
      assert (a + b)[1..] == a[1..] + b && (a + b)[0] == a[0];
      VisibleOfBoth(s, a[1..], b, p);
    }
  }

  ghost predicate NoBackdrop(items: seq<Item>) {
    forall i :: 0 <= i < |items| && items[i].LayerItem? ==> !items[i].l.withinBackdrop
  }

  lemma {:induction false} LayersAreNoBackdrop(layers: seq<LayerSurface>, layer: Layer, popups: bool, place: Placement)
    ensures NoBackdrop(DrawLayer(layers, layer, popups, false, place))
    decreases layers
  {
    if layers != [] { LayersAreNoBackdrop(layers[..|layers| - 1], layer, popups, place); }
  }

  lemma LowIsNoBackdrop(s: Output, popups: bool, place: Placement)
    ensures NoBackdrop(DrawLow(s, popups, place))
  {
    LayersAreNoBackdrop(s.layers, Bottom, popups, place);
    LayersAreNoBackdrop(s.layers, Background, popups, place);
  }

  lemma {:induction false} WorkspacesAreNoBackdrop(s: Output, popups: bool, n: nat)
    ensures NoBackdrop(DrawPerWorkspace(s, popups, n))
    decreases n
  {
    if n > 0 {
      WorkspacesAreNoBackdrop(s, popups, n - 1);
      LowIsNoBackdrop(s, popups, Within(s.mon.WorkspaceAt(n - 1), s.mon.zoom));
    }
  }

  lemma BothAreNoBackdrop(s: Output, layer: Layer)
    ensures NoBackdrop(DrawBoth(s, layer, false))
  {
    LayersAreNoBackdrop(s.layers, layer, true, InPlace);
    LayersAreNoBackdrop(s.layers, layer, false, InPlace);
  }

  lemma NoBackdropOfBoth(a: seq<Item>, b: seq<Item>)
    requires NoBackdrop(a) && NoBackdrop(b)
    ensures NoBackdrop(a + b)
  {
  }

  lemma AboveTopIsNoBackdrop(s: Output)
    ensures NoBackdrop(DrawAboveTop(s))
  {
    var popups, low := DrawLow(s, true, InPlace), DrawLow(s, false, InPlace);
    LowIsNoBackdrop(s, true, InPlace);
    LowIsNoBackdrop(s, false, InPlace);
    BothAreNoBackdrop(s, Top);
    NoBackdropOfBoth(popups, low);
    NoBackdropOfBoth(DrawBoth(s, Top, false), popups + low);
    NoBackdropOfBoth([Windows], DrawBoth(s, Top, false) + (popups + low));
    NoBackdropOfBoth([MovedWindow], [Windows] + (DrawBoth(s, Top, false) + (popups + low)));
  }

  lemma BelowTopIsNoBackdrop(s: Output)
    ensures NoBackdrop(DrawBelowTop(s))
  {
    var popups, low := DrawPerWorkspace(s, true, s.mon.workspaces), DrawPerWorkspace(s, false, s.mon.workspaces);
    WorkspacesAreNoBackdrop(s, true, s.mon.workspaces);
    WorkspacesAreNoBackdrop(s, false, s.mon.workspaces);
    BothAreNoBackdrop(s, Top);
    NoBackdropOfBoth([Windows], low);
    NoBackdropOfBoth(popups, [Windows] + low);
    NoBackdropOfBoth([MovedWindow], popups + ([Windows] + low));
    NoBackdropOfBoth(DrawBoth(s, Top, false), [MovedWindow] + (popups + ([Windows] + low)));
  }

  lemma ContentsAreNoBackdrop(s: Output)
    ensures NoBackdrop(DrawnContents(s))
  {
    BothAreNoBackdrop(s, Overlay);
    AboveTopIsNoBackdrop(s);
    BelowTopIsNoBackdrop(s);
    NoBackdropOfBoth(DrawBoth(s, Overlay, false),
                     if s.mon.renderAboveTopLayer then DrawAboveTop(s) else DrawBelowTop(s));
  }

  // With the overview closed, what receives input is what is seen on top, except that the backdrop
  // is seen without receiving any.
  lemma {:induction false} UnderIsFirstVisible(s: Output, p: Point)
    requires s.mon.Valid() && !s.mon.overviewOpen && s.mon.zoom == 1.0 && s.mon.InView(p)
    ensures FirstVisible(s, DrawOrder(s), p) == OrElse(Under(s, p), FirstVisible(s, DrawBoth(s, Background, true), p))
  {
    UnderIsFirstDrawn(s, p);
    ContentsAreNoBackdrop(s);
    BackdropTakesNothing(s, p);
    FirstOfBoth(s, DrawnContents(s), DrawBoth(s, Background, true), p);
    VisibleOfBoth(s, DrawnContents(s), DrawBoth(s, Background, true), p);
  }

  // A hot corner takes input away from whatever is drawn there.
  lemma {:induction false} ContentsMatchExactlyWhen(s: Output, p: Point)
    requires !s.modal && s.mon.Valid() && s.mon.Unzoomed() && s.mon.InView(p)
    ensures ContentsUnder(s, p).(hotCorner := false) == AsContents(s, FirstDrawn(s, DrawOrder(s), p)) <==>
            !OnHotCorner(s, p) || FirstDrawn(s, DrawOrder(s), p).None?
  {
    UnderIsFirstDrawn(s, p);
  }

  lemma {:induction false} OverlayLosesInput(s: Output, l: LayerSurface, p: Point)
    requires !s.modal && s.mon.Valid() && s.mon.Unzoomed() && s.mon.InView(p) && OnHotCorner(s, p)
    requires s.layers == [l] && l.layer == Overlay && l.mapped && !l.withinBackdrop
    requires HitLayer(l, true, ORIGIN, p).Some?
    ensures FirstDrawn(s, DrawOrder(s), p) == HitLayer(l, true, ORIGIN, p)
    ensures ContentsUnder(s, p).layer == None
  {
    UnderIsFirstDrawn(s, p);
    HitOf(l, Overlay, true, ORIGIN, p);
  }

  // An output that is not zoomed, with one workspace.
  function StillMonitor(renderAbove: bool): Monitor {
    Monitor(1000.0, 1000.0, 1.0, _ => 1.0, 10.0, 0, 0.0, 1, [0], renderAbove, false)
  }

  lemma StillMonitorIsValid(renderAbove: bool)
    ensures StillMonitor(renderAbove).Valid()
  {
  }

  // A surface everywhere on a layer, hit as a popup.
  function PopupEverywhere(layer: Layer, f: Id): LayerSurface {
    LayerSurface(0, layer, true, false, ORIGIN, ORIGIN, _ => Some((f, ORIGIN)), _ => None)
  }

  lemma PopupIsHit(layer: Layer, f: Id, p: Point)
    ensures HitLayer(PopupEverywhere(layer, f), true, ORIGIN, p) == Some(OnLayer(0, f, ORIGIN))
  {
    assert Plus(ORIGIN, ORIGIN) == ORIGIN;
  }

  function WithHotCorner(s: Output): Output {
    s.(hotCornerAt := _ => true)
  }

  lemma HotCornerCase(f: Id) returns (s: Output, l: LayerSurface, p: Point)
    ensures !s.modal && s.mon.Valid() && s.mon.Unzoomed() && s.mon.InView(p) && OnHotCorner(s, p)
    ensures s.layers == [l] && l.layer == Overlay && l.mapped && !l.withinBackdrop
    ensures HitLayer(l, true, ORIGIN, p) == Some(OnLayer(0, f, ORIGIN))
  {
    p := ORIGIN;
    l := PopupEverywhere(Overlay, f);
    s := WithHotCorner(Showing(StillMonitor(false), l));
    StillMonitorIsValid(false);
    PopupIsHit(Overlay, f, p);
  }

  // For instance on this output, with a surface everywhere on the overlay layer.
  lemma HotCornerOverOverlay(f: Id) returns (s: Output, p: Point)
    ensures s.mon.Valid() && s.mon.InView(p) && !s.modal
    ensures FirstDrawn(s, DrawOrder(s), p) == Some(OnLayer(0, f, ORIGIN))
    ensures ContentsUnder(s, p).layer == None
  {
    var l;
    s, l, p := HotCornerCase(f);
    OverlayLosesInput(s, l, p);
  }

  // --- Activation -------------------------------------------------------------------------------

  // Only surfaces on the background layer are placed within the backdrop.
  ghost predicate BackdropIsBackground(layers: seq<LayerSurface>) {
    forall i :: 0 <= i < |layers| && layers[i].withinBackdrop ==> layers[i].layer == Background
  }

  lemma {:induction false} AnyHitExactly(layers: seq<LayerSurface>, layer: Layer, popup: bool, p: Point)
    requires BackdropIsBackground(layers) && (layer == Overlay || layer == Top)
    ensures AnyHit(layers, layer, popup, p) <==> TopmostHit(layers, layer, popup, ORIGIN, p).Some?
    decreases layers
  {
    if layers != [] {
      var k := |layers| - 1;
      var rest := layers[..k];
      AnyHitExactly(rest, layer, popup, p);
      if AnyHit(rest, layer, popup, p) {
        var i :| 0 <= i < |rest| && Obscures(rest[i], layer, popup, p);
        assert layers[i] == rest[i];
      }
      if AnyHit(layers, layer, popup, p) && !Obscures(layers[k], layer, popup, p) {
        var i :| 0 <= i < |layers| && Obscures(layers[i], layer, popup, p);
        assert rest[i] == layers[i];
      }
    }
  }

  lemma StickyObscuredExactly(s: Output, p: Point)
    requires BackdropIsBackground(s.layers)
    ensures StickyObscured(s, p) <==>
              || BothUnder(s, Overlay, p).Some?
              || (!s.mon.renderAboveTopLayer && (s.hotCornerAt(p) || BothUnder(s, Top, p).Some?))
  {
    AnyHitExactly(s.layers, Overlay, true, p);
    AnyHitExactly(s.layers, Overlay, false, p);
    AnyHitExactly(s.layers, Top, true, p);
    AnyHitExactly(s.layers, Top, false, p);
  }

  lemma {:induction false} TopmostHitIsOnLayer(layers: seq<LayerSurface>, layer: Layer, popup: bool,
                                               offset: Point, p: Point)
    ensures var h := TopmostHit(layers, layer, popup, offset, p); h.Some? ==> h.value.OnLayer?
    decreases layers
  {
    if layers != [] { TopmostHitIsOnLayer(layers[..|layers| - 1], layer, popup, offset, p); }
  }

  lemma LayerUnderIsOnLayer(s: Output, layer: Layer, popup: bool, p: Point)
    ensures LayerUnder(s, layer, popup, p).Some? ==> LayerUnder(s, layer, popup, p).value.OnLayer?
  {
    var offset := LayerOffset(s, layer, p);
    if offset.Some? { TopmostHitIsOnLayer(s.layers, layer, popup, offset.value, p); }
  }

  lemma HitWindowExactly(s: Output, h: Option<WindowHit>, p: Point)
    ensures HitWindow(s, h, p).Some? <==> h.Some?
    ensures h.Some? ==> HitWindow(s, h, p).value.OnWindow? && HitWindow(s, h, p).value.hit == h.value
  {
  }

  // The window to activate is the window that receives the input.
  lemma ActivatedWindowReceivesInput(s: Output, p: Point)
    requires BackdropIsBackground(s.layers) && WindowUnder(s, p).Some?
    ensures ContentsUnder(s, p).window == WindowUnder(s, p)
  {
    StickyObscuredExactly(s, p);
    HitWindowExactly(s, s.movedAt(p), p);
    HitWindowExactly(s, s.windowAt(p), p);
  }

  // The converse fails in one case: windows drawn above the top layer receive input in front of a
  // popup of the bottom or background layer, but are taken to be obscured by it.
  lemma InputWindowIsActivatedExactlyWhen(s: Output, p: Point)
    requires BackdropIsBackground(s.layers) && ContentsUnder(s, p).window.Some?
    ensures WindowUnder(s, p) == ContentsUnder(s, p).window <==>
            !(s.mon.renderAboveTopLayer && s.movedAt(p).None? && LayoutObscured(s, p))
  {
    StickyObscuredExactly(s, p);
    HitWindowExactly(s, s.movedAt(p), p);
    HitWindowExactly(s, s.windowAt(p), p);
    forall layer: Layer, popup: bool
      ensures LayerUnder(s, layer, popup, p).Some? ==> LayerUnder(s, layer, popup, p).value.OnLayer?
    {
      LayerUnderIsOnLayer(s, layer, popup, p);
    }
  }

  lemma CoveredPopupPreventsActivation(s: Output, l: LayerSurface, p: Point)
    requires !s.modal && s.mon.Valid() && s.mon.renderAboveTopLayer && s.mon.InView(p) && s.layers == [l]
    requires l.layer == Bottom && l.mapped && !l.withinBackdrop && HitLayer(l, true, ORIGIN, p).Some?
    requires s.movedAt(p).None? && s.windowAt(p).Some?
    ensures ContentsUnder(s, p).window == s.windowAt(p)
    ensures WindowUnder(s, p) == None
  {
    StandsStill(s.mon, p);
    NotOnLayer(s, l, Overlay, true, p);
    NotOnLayer(s, l, Overlay, false, p);
    HitOf(l, Bottom, true, ORIGIN, p);
    HitWindowExactly(s, s.movedAt(p), p);
    HitWindowExactly(s, s.windowAt(p), p);
  }

  function WithWindow(s: Output, w: Id): Output {
    s.(windowAt := _ => Some(WindowHit(w, None)))
  }

  lemma FullscreenCase(w: Id, f: Id) returns (s: Output, l: LayerSurface, p: Point)
    ensures !s.modal && s.mon.Valid() && s.mon.renderAboveTopLayer && s.mon.InView(p) && s.layers == [l]
    ensures l.layer == Bottom && l.mapped && !l.withinBackdrop && HitLayer(l, true, ORIGIN, p).Some?
    ensures s.movedAt(p).None? && s.windowAt(p) == Some(WindowHit(w, None))
  {
    p := ORIGIN;
    l := PopupEverywhere(Bottom, f);
    s := WithWindow(Showing(StillMonitor(true), l), w);
    StillMonitorIsValid(true);
    PopupIsHit(Bottom, f, p);
  }

  // Such an output: with a window everywhere above the top layer, over a popup of the bottom layer.
  lemma FullscreenWindowOverPopup(w: Id, f: Id) returns (s: Output, p: Point)
    ensures s.mon.Valid() && s.mon.InView(p) && BackdropIsBackground(s.layers)
    ensures ContentsUnder(s, p).window == Some(WindowHit(w, None))
    ensures WindowUnder(s, p) == None
  {
    var l;
    s, l, p := FullscreenCase(w, f);
    CoveredPopupPreventsActivation(s, l, p);
  }
}
