/**
 Where the workspaces of an output are, in the overview and out of it, and which of them is under a point.
 */
module WorkspaceGeometry {
  import opened Options
  import opened HitTesting

  // The distance between the middles of neighbouring workspaces, which their own zoom does not change.
  function Distance(m: Monitor): real {
    m.height * m.zoom + m.gap
  }

  function Middle(ws: Workspace): Point {
    Point(ws.loc.x + ws.width / 2.0, ws.loc.y + ws.height / 2.0)
  }

  // Every workspace is as large as the view under its own zoom, is in the middle of the view from left
  // to right, and from top to bottom as many steps from the middle as it is from the rendered one.
  lemma CentredInTheView(m: Monitor, i: nat)
    ensures var ws := m.WorkspaceAt(i);
            && ws.width == m.width * m.localZoom(i) && ws.height == m.height * m.localZoom(i)
            && Middle(ws) == Point(m.width / 2.0, m.height / 2.0 + (i as real - m.renderIdx) * Distance(m))
  {
    Subtracted(i as real, m.renderIdx, Distance(m));
  }

  lemma Subtracted(a: real, b: real, c: real)
    ensures (a - b) * c == a * c - b * c
  {
  }

  ghost predicate SpanTogether(m: Monitor, i: nat, j: nat) {
    exists p: Point :: m.WorkspaceAt(i).Spans(p) && m.WorkspaceAt(j).Spans(p)
  }

  lemma StripesMeet(a: Workspace, b: Workspace)
    requires a.height > 0.0 && b.height > 0.0 && a.loc.y + a.height / 2.0 <= b.loc.y + b.height / 2.0
    ensures (exists p: Point :: a.Spans(p) && b.Spans(p)) <==>
              Middle(b).y - Middle(a).y < (a.height + b.height) / 2.0
  {
    var low := if a.loc.y < b.loc.y then b.loc.y else a.loc.y;
    if Middle(b).y - Middle(a).y < (a.height + b.height) / 2.0 {
      assert a.Spans(Point(0.0, low)) && b.Spans(Point(0.0, low));
    }
  }

  // Two workspaces share a point of the view from top to bottom exactly if their own zooms make them
  // more than fill the distance between them.
  lemma ShareExactlyWhen(m: Monitor, i: nat, j: nat)
    requires m.Valid() && i < j
    ensures SpanTogether(m, i, j) <==>
              (j - i) as real * Distance(m) < m.height * (m.localZoom(i) + m.localZoom(j)) / 2.0
  {
    var a, b := m.WorkspaceAt(i), m.WorkspaceAt(j);
    var apart := (j - i) as real * Distance(m);
    CentredInTheView(m, i);
    CentredInTheView(m, j);
    Between(i as real, j as real, m.renderIdx, Distance(m));
    assert Middle(b).y - Middle(a).y == apart;
    Positive(m.height, m.localZoom(i));
    Positive(m.height, m.localZoom(j));
    Positive(m.height, m.zoom);
    Positive((j - i) as real, Distance(m));
    StripesMeet(a, b);
    Added(m.height, m.localZoom(i), m.localZoom(j));
  }

  lemma Between(a: real, b: real, c: real, step: real)
    ensures (b - c) * step - (a - c) * step == (b - a) * step
  {
  }

  lemma Positive(a: real, b: real)
    requires a > 0.0 && b > 0.0
    ensures a * b > 0.0
  {
  }

  lemma Added(a: real, b: real, c: real)
    ensures a * (b + c) == a * b + a * c
  {
  }

  // The k-th workspace of the order is the last one that spans the point.
  ghost predicate LastSpanning(m: Monitor, order: seq<nat>, k: int, p: Point) {
    && 0 <= k < |order| && m.WorkspaceAt(order[k]).Spans(p)
    && forall j :: k < j < |order| ==> !m.WorkspaceAt(order[j]).Spans(p)
  }

  // Of the workspaces that span a point of the view, the one drawn last is under it.
  lemma {:induction false} UnderExactly(m: Monitor, order: seq<nat>, p: Point, k: int)
    ensures LastSpanning(m, order, k, p) && 0.0 <= p.x < m.width ==>
              m.WorkspaceUnder(order, p) == Some(m.WorkspaceAt(order[k]))
    ensures m.WorkspaceUnder(order, p).None? <==>
              !(0.0 <= p.x < m.width) || forall j :: 0 <= j < |order| ==> !m.WorkspaceAt(order[j]).Spans(p)
    decreases order
  {
    if order != [] {
      var n := |order| - 1;
      UnderExactly(m, order[..n], p, k);
      assert forall j :: 0 <= j < n ==> order[..n][j] == order[j];
    }
  }
}
