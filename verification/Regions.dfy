/**
 Turning a Wayland region, a list of added and subtracted rectangles, into rectangles that do not
 overlap and cover the same points.
 */
module Regions {

  import opened Geometry

  datatype Kind = Add | Subtract

  type Rect = r: Rectangle | 0 <= r.w && 0 <= r.h witness Rectangle(0, 0, 0, 0)

  datatype Part = Part(kind: Kind, rect: Rect)

  type Region = seq<Part>
  type Span = (int, int)

  // A point belongs to the region if the last part that covers it adds it.
  predicate Contains(region: Region, px: int, py: int) {
    region != [] &&
    (var last := region[|region| - 1];
     if last.rect.Covers(px, py) then last.kind.Add? else Contains(region[..|region| - 1], px, py))
  }

  predicate InRects(rects: seq<Rect>, px: int, py: int) {
    exists i :: 0 <= i < |rects| && rects[i].Covers(px, py)
  }

  // --- Spans of one band ----------------------------------------------------------------------

  // Non-empty, from left to right, with gaps between them.
  ghost predicate Ordered(spans: seq<Span>) {
    && (forall i :: 0 <= i < |spans| ==> spans[i].0 < spans[i].1)
    && (forall i, j :: 0 <= i < j < |spans| ==> spans[i].1 < spans[j].0)
  }

  predicate InSpans(spans: seq<Span>, x: int) {
    exists i :: 0 <= i < |spans| && spans[i].0 <= x < spans[i].1
  }

  lemma InConcat(a: seq<Span>, b: seq<Span>, x: int)
    ensures InSpans(a + b, x) <==> InSpans(a, x) || InSpans(b, x)
  {
    if InSpans(a, x) {
      var i :| 0 <= i < |a| && a[i].0 <= x < a[i].1;
      assert (a + b)[i] == a[i];
    }
    if InSpans(b, x) {
      var i :| 0 <= i < |b| && b[i].0 <= x < b[i].1;
      assert (a + b)[|a| + i] == b[i];
    }
  }

  lemma InAppended(a: seq<Span>, s: Span, x: int)
    ensures InSpans(a + [s], x) <==> InSpans(a, x) || s.0 <= x < s.1
  {
    InConcat(a, [s], x);
    assert [s][0] == s;
  }

  // Adding and subtracting a span, from the right.
  function Added(spans: seq<Span>, x1: int, x2: int): seq<Span>
    decreases spans
  {
    if spans == [] then [(x1, x2)]
    else
      var (start, end) := spans[|spans| - 1];
      var rest := spans[..|spans| - 1];
      if end < x1 then spans + [(x1, x2)]
      else if x2 < start then Added(rest, x1, x2) + [(start, end)]
      else Added(rest, if start < x1 then start else x1, if x2 < end then end else x2)
  }

  function Pieces(s: Span, x1: int, x2: int): seq<Span> {
    (if s.0 < x1 then [(s.0, x1)] else []) + (if x2 < s.1 then [(x2, s.1)] else [])
  }

  function Subtracted(spans: seq<Span>, x1: int, x2: int): seq<Span>
    decreases spans
  {
    if spans == [] then []
    else
      var (start, end) := spans[|spans| - 1];
      var rest := spans[..|spans| - 1];
      if end <= x1 then spans
      else if x2 <= start then Subtracted(rest, x1, x2) + [(start, end)]
      else Subtracted(rest, x1, x2) + Pieces((start, end), x1, x2)
  }

  ghost predicate EndsBefore(spans: seq<Span>, x: int) {
    forall i :: 0 <= i < |spans| ==> spans[i].1 < x
  }

  lemma {:induction false} AddedEnds(spans: seq<Span>, x1: int, x2: int, bound: int)
    requires x2 < bound && EndsBefore(spans, bound)
    ensures EndsBefore(Added(spans, x1, x2), bound)
    decreases spans
  {
    if spans != [] {
      var (start, end) := spans[|spans| - 1];
      var rest := spans[..|spans| - 1];
      if x2 < start {
        AddedEnds(rest, x1, x2, bound);
      } else if x1 <= end {
        AddedEnds(rest, if start < x1 then start else x1, if x2 < end then end else x2, bound);
      }
    }
  }

  lemma {:induction false} AddedStaysOrdered(spans: seq<Span>, x1: int, x2: int)
    requires Ordered(spans) && x1 < x2
    ensures Ordered(Added(spans, x1, x2))
    decreases spans
  {
    if spans != [] {
      var (start, end) := spans[|spans| - 1];
      var rest := spans[..|spans| - 1];
      if end < x1 {
        assert EndsBefore(spans, x1);
      } else if x2 < start {
        AddedStaysOrdered(rest, x1, x2);
        AddedEnds(rest, x1, x2, start);
      } else {
        AddedStaysOrdered(rest, if start < x1 then start else x1, if x2 < end then end else x2);
      }
    }
  }

  lemma {:induction false} AddedIsUnion(spans: seq<Span>, x1: int, x2: int, x: int)
    requires Ordered(spans) && x1 < x2
    ensures InSpans(Added(spans, x1, x2), x) <==> InSpans(spans, x) || x1 <= x < x2
    decreases spans
  {
    if spans == [] {
      InAppended([], (x1, x2), x);
      assert [] + [(x1, x2)] == [(x1, x2)];
    } else {
      var last := spans[|spans| - 1];
      var rest := spans[..|spans| - 1];
      assert spans == rest + [last];
      InAppended(rest, last, x);
      if last.1 < x1 {
        InAppended(spans, (x1, x2), x);
      } else if x2 < last.0 {
        AddedIsUnion(rest, x1, x2, x);
        InAppended(Added(rest, x1, x2), last, x);
      } else {
        AddedIsUnion(rest, if last.0 < x1 then last.0 else x1, if x2 < last.1 then last.1 else x2, x);
      }
    }
  }

  lemma {:induction false} SubtractedEnds(spans: seq<Span>, x1: int, x2: int, bound: int)
    requires EndsBefore(spans, bound)
    ensures EndsBefore(Subtracted(spans, x1, x2), bound)
    decreases spans
  {
    if spans != [] {
      SubtractedEnds(spans[..|spans| - 1], x1, x2, bound);
    }
  }

  lemma OrderedAppended(a: seq<Span>, s: Span)
    requires Ordered(a) && EndsBefore(a, s.0) && s.0 < s.1
    ensures Ordered(a + [s])
  {
  }

  lemma PiecesAppended(a: seq<Span>, s: Span, x1: int, x2: int)
    requires Ordered(a) && EndsBefore(a, s.0) && s.0 < s.1 && x1 < x2 && s.0 < x2 && x1 < s.1
    ensures Ordered(a + Pieces(s, x1, x2))
  {
    var left := if s.0 < x1 then a + [(s.0, x1)] else a;
    if s.0 < x1 { OrderedAppended(a, (s.0, x1)); }
    if x2 < s.1 {
      OrderedAppended(left, (x2, s.1));
      assert a + Pieces(s, x1, x2) == left + [(x2, s.1)];
    } else {
      assert a + Pieces(s, x1, x2) == left;
    }
  }

  lemma {:induction false} SubtractedStaysOrdered(spans: seq<Span>, x1: int, x2: int)
    requires Ordered(spans) && x1 < x2
    ensures Ordered(Subtracted(spans, x1, x2))
    decreases spans
  {
    if spans != [] {
      var last := spans[|spans| - 1];
      var rest := spans[..|spans| - 1];
      if x1 < last.1 {
        SubtractedStaysOrdered(rest, x1, x2);
        SubtractedEnds(rest, x1, x2, last.0);
        if x2 <= last.0 {
          OrderedAppended(Subtracted(rest, x1, x2), last);
        } else {
          PiecesAppended(Subtracted(rest, x1, x2), last, x1, x2);
        }
      }
    }
  }

  lemma {:induction false} SubtractedIsDifference(spans: seq<Span>, x1: int, x2: int, x: int)
    requires Ordered(spans) && x1 < x2
    ensures InSpans(Subtracted(spans, x1, x2), x) <==> InSpans(spans, x) && !(x1 <= x < x2)
    decreases spans
  {
    if spans != [] {
      var last := spans[|spans| - 1];
      var rest := spans[..|spans| - 1];
      assert spans == rest + [last];
      InAppended(rest, last, x);
      if x1 < last.1 {
        SubtractedIsDifference(rest, x1, x2, x);
        if x2 <= last.0 {
          InAppended(Subtracted(rest, x1, x2), last, x);
        } else {
          InConcat(Subtracted(rest, x1, x2), Pieces(last, x1, x2), x);
          InPieces(last, x1, x2, x);
        }
      }
    }
  }

  lemma InPieces(s: Span, x1: int, x2: int, x: int)
    requires s.0 < s.1 && x1 < x2 && x1 < s.1 && s.0 < x2
    ensures InSpans(Pieces(s, x1, x2), x) <==> s.0 <= x < s.1 && !(x1 <= x < x2)
  {
    var left: seq<Span> := if s.0 < x1 then [(s.0, x1)] else [];
    var right: seq<Span> := if x2 < s.1 then [(x2, s.1)] else [];
    InConcat(left, right, x);
    if s.0 < x1 { assert left[0] == (s.0, x1); }
    if x2 < s.1 { assert right[0] == (x2, s.1); }
  }

  method AddSpan(spans: seq<Span>, from: int, to: int) returns (r: seq<Span>)
    requires Ordered(spans) && from < to
    ensures r == Added(spans, from, to)
  {
    r := spans;
    var x1, x2 := from, to;
    ghost var right: seq<Span> := [];
    var i := |spans|;
    assert spans[..i] == spans;
    while i > 0
      invariant 0 <= i <= |spans| && r == spans[..i] + right
      invariant Added(spans[..i], x1, x2) + right == Added(spans, from, to)
    {
      i := i - 1;
      var (start, end) := r[i];
      assert spans[..i + 1][..i] == spans[..i] && spans[..i + 1][i] == (start, end);
      if end < x1 {
        // The new span is to the right.
        r := r[..i + 1] + [(x1, x2)] + r[i + 1..];
        assert r == spans[..i + 1] + [(x1, x2)] + right;
        return;
      }
      if x2 < start {
        // The new span is to the left.
        right := [(start, end)] + right;
        assert Added(spans[..i + 1], x1, x2) == Added(spans[..i], x1, x2) + [(start, end)];
        continue;
      }
      // They overlap or touch.
      r := r[..i] + r[i + 1..];
      x1 := if start < x1 then start else x1;
      x2 := if x2 < end then end else x2;
    }
    r := [(x1, x2)] + r;
  }

  method SubtractSpan(spans: seq<Span>, x1: int, x2: int) returns (r: seq<Span>)
    requires Ordered(spans) && x1 < x2
    ensures r == Subtracted(spans, x1, x2)
  {
    r := spans;
    var i := |spans|;
    assert spans[..i] == spans;
    while i > 0
      invariant 0 <= i <= |spans| && i <= |r| && r[..i] == spans[..i]
      invariant Subtracted(spans[..i], x1, x2) + r[i..] == Subtracted(spans, x1, x2)
    {
      i := i - 1;
      assert r[i] == r[..i + 1][i] == spans[i];
      var (start, end) := r[i];
      if end <= x1 {
        SubtractStops(spans, i, x1, x2, r);
        return;
      }
      if x2 <= start {
        SubtractSkips(spans, i, x1, x2, r);
        continue;
      }
      ghost var before := r;
      r := CutSpan(r, i, x1, x2);
      SubtractStep(spans, i, x1, x2, before, r);
    }
  }

  // Replaces a span by what is left of it.
  method CutSpan(spans: seq<Span>, i: nat, x1: int, x2: int) returns (r: seq<Span>)
    requires i < |spans|
    ensures r == spans[..i] + (Pieces(spans[i], x1, x2) + spans[i + 1..])
  {
    var (start, end) := spans[i];
    r := spans[..i] + spans[i + 1..];
    if x2 < end {
      r := r[..i] + [(x2, end)] + r[i..];
    }
    if start < x1 {
      r := r[..i] + [(start, x1)] + r[i..];
    }
  }

  lemma SubtractStops(spans: seq<Span>, i: nat, x1: int, x2: int, r: seq<Span>)
    requires i < |spans| && i < |r| && r[..i + 1] == spans[..i + 1] && spans[i].1 <= x1
    ensures Subtracted(spans[..i + 1], x1, x2) + r[i + 1..] == r
  {
    assert Subtracted(spans[..i + 1], x1, x2) == spans[..i + 1];
  }

  lemma {:induction false} SubtractSkips(spans: seq<Span>, i: nat, x1: int, x2: int, r: seq<Span>)
    requires i < |spans| && i < |r| && r[..i + 1] == spans[..i + 1] && x1 < spans[i].1 && x2 <= spans[i].0
    ensures r[..i] == spans[..i]
    ensures Subtracted(spans[..i], x1, x2) + r[i..] == Subtracted(spans[..i + 1], x1, x2) + r[i + 1..]
  {
    assert spans[..i + 1][..i] == spans[..i] && r[..i] == r[..i + 1][..i];
    assert r[i] == r[..i + 1][i] == spans[i];
    assert r[i..] == [spans[i]] + r[i + 1..];
    Regroup(Subtracted(spans[..i], x1, x2), [spans[i]], r[i + 1..]);
  }

  lemma {:induction false} SubtractStep(spans: seq<Span>, i: nat, x1: int, x2: int, before: seq<Span>, r: seq<Span>)
    requires i < |spans| && i < |before| && before[..i + 1] == spans[..i + 1]
    requires x1 < spans[i].1 && spans[i].0 < x2
    requires r == before[..i] + (Pieces(spans[i], x1, x2) + before[i + 1..])
    ensures r[..i] == spans[..i]
    ensures Subtracted(spans[..i], x1, x2) + r[i..] == Subtracted(spans[..i + 1], x1, x2) + before[i + 1..]
  {
    assert spans[..i + 1][..i] == spans[..i] && before[..i] == before[..i + 1][..i];
    assert r[i..] == Pieces(spans[i], x1, x2) + before[i + 1..];
    Regroup(Subtracted(spans[..i], x1, x2), Pieces(spans[i], x1, x2), before[i + 1..]);
  }

  lemma Regroup(a: seq<Span>, b: seq<Span>, c: seq<Span>)
    ensures a + (b + c) == (a + b) + c
  {
  }

  // --- Bands ------------------------------------------------------------------------------------

  ghost predicate Increasing(ys: seq<int>) {
    forall i, j :: 0 <= i < j < |ys| ==> ys[i] < ys[j]
  }

  function InsertY(y: int, ys: seq<int>): (r: seq<int>)
    ensures r != []
  {
    if ys == [] || y < ys[0] then [y] + ys
    else if y == ys[0] then ys
    else [ys[0]] + InsertY(y, ys[1..])
  }

  // The distinct y coordinates of all edges, in order.
  function Edges(region: Region): seq<int> {
    if region == [] then []
    else
      var r := region[0].rect;
      InsertY(r.y, InsertY(r.y + r.h, Edges(region[1..])))
  }

  lemma {:induction false} InsertYInserts(y: int, ys: seq<int>)
    requires Increasing(ys)
    ensures Increasing(InsertY(y, ys))
    ensures forall z :: z in InsertY(y, ys) <==> z == y || z in ys
    decreases ys
  {
    if ys != [] && ys[0] < y {
      var rest := InsertY(y, ys[1..]);
      InsertYInserts(y, ys[1..]);
      assert ys == [ys[0]] + ys[1..];
      forall i | 0 <= i < |rest|
        ensures ys[0] < rest[i]
      {
        assert rest[i] in rest;
      }
    }
  }

  lemma {:induction false} EdgesInOrder(region: Region)
    ensures Increasing(Edges(region))
    decreases region
  {
    if region != [] {
      var r := region[0].rect;
      EdgesInOrder(region[1..]);
      InsertYInserts(r.y + r.h, Edges(region[1..]));
      InsertYInserts(r.y, InsertY(r.y + r.h, Edges(region[1..])));
    }
  }

  lemma {:induction false} InsertYHas(z: int, y: int, ys: seq<int>)
    requires Increasing(ys) && (z == y || z in ys)
    ensures z in InsertY(y, ys) && Increasing(InsertY(y, ys))
  {
    InsertYInserts(y, ys);
  }

  lemma {:induction false} BothInserted(z: int, a: int, b: int, ys: seq<int>)
    requires Increasing(ys) && (z == a || z == b || z in ys)
    ensures z in InsertY(a, InsertY(b, ys))
  {
    InsertYHas(if z == a then b else z, b, ys);
    InsertYHas(z, a, InsertY(b, ys));
  }

  lemma EdgesUnfold(region: Region, ys: seq<int>)
    requires region != [] && ys == Edges(region[1..])
    ensures Edges(region) == InsertY(region[0].rect.y, InsertY(region[0].rect.y + region[0].rect.h, ys))
  {
  }

  lemma {:induction false} EdgeKept(region: Region, z: int, ys: seq<int>, r: Rect)
    requires region != [] && region[0].rect == r && ys == Edges(region[1..])
    requires z == r.y || z == r.y + r.h || z in ys
    ensures z in Edges(region)
  {
    EdgesInOrder(region[1..]);
    EdgesUnfold(region, ys);
    BothInserted(z, r.y, r.y + r.h, ys);
  }

  lemma {:induction false} EdgesOfPart(region: Region, p: Part)
    requires p in region
    ensures p.rect.y in Edges(region) && p.rect.y + p.rect.h in Edges(region)
    decreases region
  {
    if p != region[0] {
      assert p in region[1..];
      EdgesOfPart(region[1..], p);
    }
    EdgeKept(region, p.rect.y, Edges(region[1..]), region[0].rect);
    EdgeKept(region, p.rect.y + p.rect.h, Edges(region[1..]), region[0].rect);
  }

  // The spans that the region covers between two neighbouring edges.
  function BandSpans(region: Region, lo: int, hi: int): seq<Span> {
    if region == [] then []
    else
      var before := BandSpans(region[..|region| - 1], lo, hi);
      var Part(kind, r) := region[|region| - 1];
      if hi <= r.y || r.y + r.h <= lo || r.w == 0 then before
      else if kind.Add? then Added(before, r.x, r.x + r.w)
      else Subtracted(before, r.x, r.x + r.w)
  }

  ghost predicate NoEdgeBetween(region: Region, lo: int, hi: int) {
    forall p :: p in region ==>
      && (p.rect.y <= lo || hi <= p.rect.y)
      && (p.rect.y + p.rect.h <= lo || hi <= p.rect.y + p.rect.h)
  }

  lemma {:induction false} BandSpansOrdered(region: Region, lo: int, hi: int)
    ensures Ordered(BandSpans(region, lo, hi))
    decreases region
  {
    if region != [] {
      var before := BandSpans(region[..|region| - 1], lo, hi);
      BandSpansOrdered(region[..|region| - 1], lo, hi);
      var r := region[|region| - 1].rect;
      if r.w > 0 {
        AddedStaysOrdered(before, r.x, r.x + r.w);
        SubtractedStaysOrdered(before, r.x, r.x + r.w);
      }
    }
  }

  // Inside a band the spans are the region.
  lemma {:induction false} BandSpansExact(region: Region, lo: int, hi: int, px: int, py: int)
    requires lo <= py < hi && NoEdgeBetween(region, lo, hi)
    ensures InSpans(BandSpans(region, lo, hi), px) <==> Contains(region, px, py)
    decreases region
  {
    if region != [] {
      var rest := region[..|region| - 1];
      var last := region[|region| - 1];
      assert last in region;
      BandSpansExact(rest, lo, hi, px, py);
      BandSpansOrdered(rest, lo, hi);
      if last.rect.w > 0 {
        AddedIsUnion(BandSpans(rest, lo, hi), last.rect.x, last.rect.x + last.rect.w, px);
        SubtractedIsDifference(BandSpans(rest, lo, hi), last.rect.x, last.rect.x + last.rect.w, px);
      }
    }
  }

  // --- All bands --------------------------------------------------------------------------------

  function BandRects(spans: seq<Span>, lo: int, hi: int): (rects: seq<Rect>)
    requires lo <= hi && forall i :: 0 <= i < |spans| ==> spans[i].0 <= spans[i].1
    ensures |rects| == |spans|
  {
    seq(|spans|, i requires 0 <= i < |spans| => Rectangle(spans[i].0, lo, spans[i].1 - spans[i].0, hi - lo))
  }

  // The rectangles of the first `k` bands.
  ghost function Sweep(region: Region, k: nat): seq<Rect>
    requires k < |Edges(region)|
  {
    if k == 0 then []
    else
      EdgesInOrder(region);
      var lo, hi := Edges(region)[k - 1], Edges(region)[k];
      BandSpansOrdered(region, lo, hi);
      Sweep(region, k - 1) + BandRects(BandSpans(region, lo, hi), lo, hi)
  }

  ghost function Swept(region: Region): seq<Rect> {
    if region == [] then [] else Sweep(region, |Edges(region)| - 1)
  }

  lemma InBandRects(spans: seq<Span>, lo: int, hi: int, px: int, py: int)
    requires lo <= hi && Ordered(spans)
    ensures InRects(BandRects(spans, lo, hi), px, py) <==> lo <= py < hi && InSpans(spans, px)
  {
    var rects := BandRects(spans, lo, hi);
    if InRects(rects, px, py) {
      var i :| 0 <= i < |rects| && rects[i].Covers(px, py);
      assert spans[i].0 <= px < spans[i].1;
    }
    if lo <= py < hi && InSpans(spans, px) {
      var i :| 0 <= i < |spans| && spans[i].0 <= px < spans[i].1;
      assert rects[i].Covers(px, py);
    }
  }

  lemma InBoth(a: seq<Rect>, b: seq<Rect>, px: int, py: int)
    ensures InRects(a + b, px, py) <==> InRects(a, px, py) || InRects(b, px, py)
  {
    if InRects(a, px, py) {
      var i :| 0 <= i < |a| && a[i].Covers(px, py);
      assert (a + b)[i] == a[i];
    }
    if InRects(b, px, py) {
      var i :| 0 <= i < |b| && b[i].Covers(px, py);
      assert (a + b)[|a| + i] == b[i];
    }
  }

  lemma {:induction false} NeighboursHaveNoEdgeBetween(region: Region, k: nat)
    requires 0 < k < |Edges(region)|
    ensures NoEdgeBetween(region, Edges(region)[k - 1], Edges(region)[k])
  {
    forall p | p in region
      ensures p.rect.y <= Edges(region)[k - 1] || Edges(region)[k] <= p.rect.y
      ensures p.rect.y + p.rect.h <= Edges(region)[k - 1] || Edges(region)[k] <= p.rect.y + p.rect.h
    {
      EdgesOfPart(region, p);
      EdgesInOrder(region);
      NothingBetween(Edges(region), k, p.rect.y);
      NothingBetween(Edges(region), k, p.rect.y + p.rect.h);
    }
  }

  lemma NothingBetween(ys: seq<int>, k: nat, y: int)
    requires Increasing(ys) && 0 < k < |ys| && y in ys
    ensures y <= ys[k - 1] || ys[k] <= y
    ensures ys[0] <= y <= ys[|ys| - 1]
  {
    var i :| 0 <= i < |ys| && ys[i] == y;
  }

  lemma {:induction false} SweepExact(region: Region, k: nat, px: int, py: int)
    requires k < |Edges(region)|
    ensures InRects(Sweep(region, k), px, py) <==>
              Edges(region)[0] <= py < Edges(region)[k] && Contains(region, px, py)
    decreases k
  {
    EdgesInOrder(region);
    if k > 0 {
      var lo, hi := Edges(region)[k - 1], Edges(region)[k];
      SweepExact(region, k - 1, px, py);
      BandSpansOrdered(region, lo, hi);
      InBoth(Sweep(region, k - 1), BandRects(BandSpans(region, lo, hi), lo, hi), px, py);
      InBandRects(BandSpans(region, lo, hi), lo, hi, px, py);
      if lo <= py < hi {
        NeighboursHaveNoEdgeBetween(region, k);
        BandSpansExact(region, lo, hi, px, py);
      }
    }
  }

  // No point outside the outermost edges belongs to the region.
  lemma {:induction false} ContainedWithinEdges(region: Region, px: int, py: int, low: int, high: int)
    requires forall p :: p in region ==> low <= p.rect.y && p.rect.y + p.rect.h <= high
    ensures Contains(region, px, py) ==> low <= py < high
    decreases region
  {
    if region != [] {
      assert region[|region| - 1] in region;
      ContainedWithinEdges(region[..|region| - 1], px, py, low, high);
    }
  }

  // The rectangles cover exactly the points of the region.
  lemma {:induction false} SweptExact(region: Region, px: int, py: int)
    ensures InRects(Swept(region), px, py) <==> Contains(region, px, py)
  {
    if region != [] {
      EdgesInOrder(region);
      var ys := Edges(region);
      SweepExact(region, |ys| - 1, px, py);
      forall p | p in region ensures ys[0] <= p.rect.y && p.rect.y + p.rect.h <= ys[|ys| - 1] {
        EdgesOfPart(region, p);
      }
      ContainedWithinEdges(region, px, py, ys[0], ys[|ys| - 1]);
    }
  }

  ghost predicate Tidy(rects: seq<Rect>) {
    && (forall i :: 0 <= i < |rects| ==> rects[i].w > 0 && rects[i].h > 0)
    && (forall i, j :: 0 <= i < j < |rects| ==> !Overlap(rects[i], rects[j]))
  }

  lemma BandRectsTidy(spans: seq<Span>, lo: int, hi: int)
    requires lo < hi && Ordered(spans)
    ensures Tidy(BandRects(spans, lo, hi))
    ensures forall i :: 0 <= i < |spans| ==>
              BandRects(spans, lo, hi)[i].y == lo && BandRects(spans, lo, hi)[i].h == hi - lo
  {
  }

  // None of them is empty and no two overlap.
  lemma {:induction false} SweepTidy(region: Region, k: nat)
    requires k < |Edges(region)|
    ensures Tidy(Sweep(region, k))
    ensures forall i :: 0 <= i < |Sweep(region, k)| ==>
              Sweep(region, k)[i].y + Sweep(region, k)[i].h <= Edges(region)[k]
    decreases k
  {
    EdgesInOrder(region);
    if k > 0 {
      var lo, hi := Edges(region)[k - 1], Edges(region)[k];
      SweepTidy(region, k - 1);
      BandSpansOrdered(region, lo, hi);
      BandRectsTidy(BandSpans(region, lo, hi), lo, hi);
    }
  }

  lemma SweptTidy(region: Region)
    ensures Tidy(Swept(region))
  {
    if region != [] {
      SweepTidy(region, |Edges(region)| - 1);
    }
  }

  method ComputeBandSpans(region: Region, lo: int, hi: int) returns (spans: seq<Span>)
    ensures spans == BandSpans(region, lo, hi)
  {
    spans := [];
    for i := 0 to |region|
      invariant spans == BandSpans(region[..i], lo, hi)
    {
      assert region[..i + 1][..i] == region[..i];
      BandSpansOrdered(region[..i], lo, hi);
      var Part(kind, r) := region[i];
      if hi <= r.y || r.y + r.h <= lo {
        continue;
      }
      var x1, x2 := r.x, r.x + r.w;
      if x1 == x2 {
        continue;
      }
      match kind {
        case Add => spans := AddSpan(spans, x1, x2);
        case Subtract => spans := SubtractSpan(spans, x1, x2);
      }
    }
    assert region[..|region|] == region;
  }

  method RegionToNonOverlappingRects(region: Region) returns (output: seq<Rect>)
    ensures output == Swept(region)
    ensures Tidy(output)
    ensures forall px, py :: InRects(output, px, py) <==> Contains(region, px, py)
  {
    output := SweepBands(region);
    SweptTidy(region);
    forall px, py ensures InRects(output, px, py) <==> Contains(region, px, py) {
      SweptExact(region, px, py);
    }
  }

  method SweepBands(region: Region) returns (output: seq<Rect>)
    ensures output == Swept(region)
  {
    output := [];
    EdgesInOrder(region);
    var ys := Edges(region);
    if ys == [] {
      return;
    }
    var lo := ys[0];
    for k := 1 to |ys|
      invariant lo == ys[k - 1]
      invariant output == Sweep(region, k - 1)
    {
      var hi := ys[k];
      var spans := ComputeBandSpans(region, lo, hi);
      BandSpansOrdered(region, lo, hi);
      output := output + BandRects(spans, lo, hi);
      lo := hi;
    }
  }
}
