/**
 What is reported under a point, spelled out: which surface, window and layer, and where in the global
 space.
 */
module ContentsTheorems {
  import opened Options
  import opened LayerShell
  import opened HitTesting
  import opened HitTheorems

  // A surface found in the window's tree at the point, relative to the window.
  ghost predicate FoundInside(s: Output, h: WindowHit, inside: Option<TreeHit>, p: Point) {
    match h.input
    case None => inside == None
    case Some(pos) =>
      var found := s.windowTree(h.window, Point(p.x - pos.x, p.y - pos.y));
      inside == if found.None? then None
                else Some((found.value.0, Point(found.value.1.x + pos.x, found.value.1.y + pos.y)))
  }

  // The hit is on the window being moved or on a window of a workspace.
  ghost predicate IsWindowHit(s: Output, h: WindowHit, p: Point) {
    s.movedAt(p) == Some(h) || s.windowAt(p) == Some(h)
  }

  lemma WindowHitIs(s: Output, under: Option<WindowHit>, p: Point)
    ensures HitWindow(s, under, p).Some? <==> under.Some?
    ensures under.Some? ==>
              var h := HitWindow(s, under, p).value;
              h.OnWindow? && h.hit == under.value && FoundInside(s, h.hit, h.inside, p)
  {
  }

  lemma {:induction false} DrawnWindowIs(s: Output, items: seq<Item>, p: Point)
    ensures var h := FirstDrawn(s, items, p);
            h.Some? && h.value.OnWindow? ==>
              IsWindowHit(s, h.value.hit, p) && FoundInside(s, h.value.hit, h.value.inside, p)
    decreases items
  {
    if items != [] {
      DrawnWindowIs(s, items[1..], p);
      WindowHitIs(s, s.movedAt(p), p);
      WindowHitIs(s, s.windowAt(p), p);
    }
  }

  // The reported surface is at a position of the output, in the global space.
  predicate SurfaceAt(c: Contents, s: Output, f: Id, at: Point) {
    c.surface == Some((f, Point(at.x + s.loc.x, at.y + s.loc.y)))
  }

  // The contents that report a hit: its surface at its place in the global space, and its layer surface
  // or window.
  ghost predicate Reports(c: Contents, s: Output, h: Option<Hit>, p: Point) {
    if h.None? then c == Contents(false, None, None, None)
    else if h.value.OnLayer? then
      !c.hotCorner && c.window == None && c.layer == Some(h.value.layer) && SurfaceAt(c, s, h.value.surface, h.value.at)
    else
      && !c.hotCorner && c.layer == None && c.window == Some(h.value.hit)
      && IsWindowHit(s, h.value.hit, p) && FoundInside(s, h.value.hit, h.value.inside, p)
      && (h.value.inside.None? ==> c.surface == None)
      && (h.value.inside.Some? ==> SurfaceAt(c, s, h.value.inside.value.0, h.value.inside.value.1))
  }

  // Off modal interfaces and hot corners, the topmost drawn item that takes input is reported.
  lemma {:induction false} ContentsExactly(s: Output, p: Point)
    requires s.mon.Valid() && s.mon.Unzoomed() && s.mon.InView(p)
    ensures var c := ContentsUnder(s, p);
            if s.modal then c == Contents(false, None, None, None)
            else if s.hotCornerAt(p) && !s.mon.renderAboveTopLayer then c == Contents(true, None, None, None)
            else Reports(c, s, FirstDrawn(s, DrawOrder(s), p), p)
  {
    var h := FirstDrawn(s, DrawOrder(s), p);
    assert Under(s, p) == h by { UnderIsFirstDrawn(s, p); }
    DrawnWindowIs(s, DrawOrder(s), p);
    ReportsIt(s, h, p);
  }

  lemma ReportsIt(s: Output, h: Option<Hit>, p: Point)
    requires h.Some? && h.value.OnWindow? ==>
               IsWindowHit(s, h.value.hit, p) && FoundInside(s, h.value.hit, h.value.inside, p)
    ensures Reports(AsContents(s, h), s, h, p)
  {
  }

  function MovedBy(s: Output, d: Point): Output {
    s.(loc := Point(s.loc.x + d.x, s.loc.y + d.y))
  }

  lemma SameUnder(s: Output, s': Output, p: Point)
    requires s' == s.(loc := s'.loc)
    ensures Under(s', p) == Under(s, p)
  {
  }

  // Moving the output moves the reported surface along, and changes nothing else.
  lemma MovingTheOutput(s: Output, d: Point, p: Point)
    ensures var c, c' := ContentsUnder(s, p), ContentsUnder(MovedBy(s, d), p);
            && c'.hotCorner == c.hotCorner && c'.window == c.window && c'.layer == c.layer
            && c'.surface.Some? == c.surface.Some?
            && (c.surface.Some? ==>
                  && c'.surface.value.0 == c.surface.value.0
                  && c'.surface.value.1 == Point(c.surface.value.1.x + d.x, c.surface.value.1.y + d.y))
  {
    SameUnder(s, MovedBy(s, d), p);
    ReportsMoved(s, MovedBy(s, d), d, Under(s, p));
  }

  lemma ReportsMoved(s: Output, s': Output, d: Point, h: Option<Hit>)
    requires s'.loc == Point(s.loc.x + d.x, s.loc.y + d.y)
    ensures var c, c' := AsContents(s, h), AsContents(s', h);
            && c'.hotCorner == c.hotCorner && c'.window == c.window && c'.layer == c.layer
            && c'.surface.Some? == c.surface.Some?
            && (c.surface.Some? ==>
                  && c'.surface.value.0 == c.surface.value.0
                  && c'.surface.value.1 == Point(c.surface.value.1.x + d.x, c.surface.value.1.y + d.y))
  {
  }
}
