/**
 Placing the outputs in the global space.

 An output has a logical size that need not be whole. The overlap check for a configured position
 rounds it, while the geometry that the space reports for a placed output rounds it up. Both are
 modelled, and the difference decides when placed outputs can overlap.
 */
module OutputPlacement {
  import opened Arithmetic
  import opened Geometry
  import opened Options
  import opened OutputNames

  datatype Entry = Entry(name: OutputName, config: Option<Point>, width: real, height: real)
  {
    ghost predicate Valid() {
      width >= 0.0 && height >= 0.0
    }
  }

  datatype Placed = Placed(entry: Entry, pos: Point)

  function Round(x: real): int {
    (x + 0.5).Floor
  }

  function Ceil(x: real): int {
    -((-x).Floor)
  }

  // The rectangle that is checked before an output goes to `pos`.
  function Target(e: Entry, pos: Point): Rectangle {
    Rectangle(pos.x, pos.y, Round(e.width), Round(e.height))
  }

  // The rectangle that the space reports for a placed output.
  function BoundsOf(p: Placed): Rectangle {
    Rectangle(p.pos.x, p.pos.y, Ceil(p.entry.width), Ceil(p.entry.height))
  }

  predicate IsFree(placed: seq<Placed>, target: Rectangle) {
    forall i :: 0 <= i < |placed| ==> !Overlap(BoundsOf(placed[i]), target)
  }

  // Right of everything placed so far.
  function RightEdge(placed: seq<Placed>): int {
    if placed == [] then 0
    else
      var last := placed[|placed| - 1];
      var edge := last.pos.x + Ceil(last.entry.width);
      if |placed| == 1 then edge
      else var rest := RightEdge(placed[..|placed| - 1]); if rest < edge then edge else rest
  }

  function PositionFor(placed: seq<Placed>, e: Entry): Point {
    if e.config.Some? && IsFree(placed, Target(e, e.config.value)) then e.config.value
    else Point(RightEdge(placed), 0)
  }

  function Place(es: seq<Entry>): (placed: seq<Placed>)
    ensures |placed| == |es| && forall i :: 0 <= i < |es| ==> placed[i].entry == es[i]
  {
    if es == [] then []
    else
      var before := Place(es[..|es| - 1]);
      var e := es[|es| - 1];
      before + [Placed(e, PositionFor(before, e))]
  }

  // --- Order of placement -----------------------------------------------------------------------

  function InsertByName(e: Entry, es: seq<Entry>): (r: seq<Entry>)
    ensures multiset(r) == multiset(es) + multiset{e}
  {
    if es == [] || Compare(e.name, es[0].name) != Greater then [e] + es
    else
      assert es == [es[0]] + es[1..];
      [es[0]] + InsertByName(e, es[1..])
  }

  function SortByName(es: seq<Entry>): (r: seq<Entry>)
    ensures multiset(r) == multiset(es)
  {
    if es == [] then []
    else
      assert es == [es[0]] + es[1..];
      InsertByName(es[0], SortByName(es[1..]))
  }

  function Filter(es: seq<Entry>, configured: bool): seq<Entry> {
    if es == [] then []
    else (if es[0].config.Some? == configured then [es[0]] else []) + Filter(es[1..], configured)
  }

  // The outputs with a configured position first, each group in the order of `es`.
  function ConfiguredFirst(es: seq<Entry>): seq<Entry> {
    Filter(es, true) + Filter(es, false)
  }

  function PlacementOrder(arrivals: seq<Entry>): seq<Entry> {
    ConfiguredFirst(SortByName(arrivals))
  }

  function Reposition(arrivals: seq<Entry>): seq<Placed> {
    Place(PlacementOrder(arrivals))
  }

  ghost predicate DistinctNames(es: seq<Entry>) {
    forall i, j :: 0 <= i < j < |es| ==> es[i].name != es[j].name
  }

  ghost predicate SortedByName(es: seq<Entry>) {
    forall i, j :: 0 <= i < j < |es| ==> Compare(es[i].name, es[j].name) == Less
  }

  ghost predicate NamesDiffer(m: multiset<Entry>) {
    forall e, f :: e in m && f in m ==> m[e] == 1 && (e.name == f.name ==> e == f)
  }

  lemma DistinctAsMultiset(es: seq<Entry>)
    requires DistinctNames(es)
    ensures NamesDiffer(multiset(es))
  {
    forall e, f | e in multiset(es) && f in multiset(es)
      ensures multiset(es)[e] == 1 && (e.name == f.name ==> e == f)
    {
      var i :| 0 <= i < |es| && es[i] == e;
      var j :| 0 <= j < |es| && es[j] == f;
      assert es == es[..i] + [e] + es[i + 1..];
      assert e !in es[..i] && e !in es[i + 1..];
    }
  }

  lemma {:induction false} InsertSorts(e: Entry, es: seq<Entry>)
    requires SortedByName(es) && forall i :: 0 <= i < |es| ==> es[i].name != e.name
    ensures SortedByName(InsertByName(e, es))
    decreases es
  {
    if es != [] {
      NamesOrdered(e.name, es[0].name);
      if Compare(e.name, es[0].name) == Greater {
        InsertSorts(e, es[1..]);
        var rest := InsertByName(e, es[1..]);
        forall i | 0 <= i < |rest| ensures Compare(es[0].name, rest[i].name) == Less {
          assert rest[i] in multiset(rest);
          assert rest[i] == e || rest[i] in es[1..];
        }
      } else {
        forall i | 0 < i < |es| ensures Compare(e.name, es[i].name) == Less {
          NamesTransitive(e.name, es[0].name, es[i].name);
        }
      }
    }
  }

  lemma {:induction false} SortSorts(es: seq<Entry>)
    requires DistinctNames(es)
    ensures SortedByName(SortByName(es))
    decreases es
  {
    if es != [] {
      SortSorts(es[1..]);
      var rest := SortByName(es[1..]);
      forall i | 0 <= i < |rest| ensures rest[i].name != es[0].name {
        assert rest[i] in multiset(rest);
        assert rest[i] in es[1..];
      }
      InsertSorts(es[0], rest);
    }
  }

  lemma LeastIsFirst(a: seq<Entry>, b: seq<Entry>)
    requires SortedByName(a) && SortedByName(b) && multiset(a) == multiset(b) && a != [] && b != []
    ensures a[0] == b[0]
  {
    assert a[0] in multiset(b) && b[0] in multiset(a);
    var j :| 0 <= j < |b| && b[j] == a[0];
    var i :| 0 <= i < |a| && a[i] == b[0];
    NamesOrdered(a[0].name, b[0].name);
  }

  // Whatever algorithm sorts by name, there is one result.
  lemma {:induction false} SortedIsUnique(a: seq<Entry>, b: seq<Entry>)
    requires SortedByName(a) && SortedByName(b) && multiset(a) == multiset(b)
    ensures a == b
    decreases a
  {
    assert |multiset(a)| == |a| && |multiset(b)| == |b|;
    if a != [] {
      LeastIsFirst(a, b);
      assert a == [a[0]] + a[1..] && b == [b[0]] + b[1..];
      assert multiset(a[1..]) == multiset(a) - multiset{a[0]};
      assert multiset(b[1..]) == multiset(b) - multiset{b[0]};
      SortedIsUnique(a[1..], b[1..]);
    }
  }

  // Outputs get the same places whatever order they arrive in.
  lemma PlacementIgnoresArrivalOrder(a: seq<Entry>, b: seq<Entry>)
    requires DistinctNames(a) && multiset(a) == multiset(b)
    ensures Reposition(a) == Reposition(b)
  {
    PermutationKeepsDistinct(a, b);
    SortSorts(a);
    SortSorts(b);
    SortedIsUnique(SortByName(a), SortByName(b));
  }

  lemma RepeatCountsTwice(es: seq<Entry>, i: int, j: int)
    requires 0 <= i < j < |es|
    ensures es[i] == es[j] ==> multiset(es)[es[i]] >= 2
  {
    assert es == es[..j] + [es[j]] + es[j + 1..];
    assert es[i] in es[..j];
  }

  lemma PermutationKeepsDistinct(a: seq<Entry>, b: seq<Entry>)
    requires DistinctNames(a) && multiset(a) == multiset(b)
    ensures DistinctNames(b)
  {
    DistinctAsMultiset(a);
    forall i, j | 0 <= i < j < |b| ensures b[i].name != b[j].name {
      RepeatCountsTwice(b, i, j);
      assert b[i] in multiset(b) && b[j] in multiset(b);
    }
  }

  // --- Where outputs end up ---------------------------------------------------------------------

  lemma {:induction false} RightEdgeBounds(placed: seq<Placed>)
    ensures forall i :: 0 <= i < |placed| ==> placed[i].pos.x + Ceil(placed[i].entry.width) <= RightEdge(placed)
    ensures placed != [] ==>
              exists i :: 0 <= i < |placed| && placed[i].pos.x + Ceil(placed[i].entry.width) == RightEdge(placed)
    decreases placed
  {
    if placed != [] {
      RightEdgeBounds(placed[..|placed| - 1]);
      var n := |placed| - 1;
      if n > 0 && placed[n].pos.x + Ceil(placed[n].entry.width) <= RightEdge(placed[..n]) {
        var i :| 0 <= i < n && placed[..n][i].pos.x + Ceil(placed[..n][i].entry.width) == RightEdge(placed[..n]);
        assert placed[i].pos.x + Ceil(placed[i].entry.width) == RightEdge(placed);
      } else {
        assert placed[n].pos.x + Ceil(placed[n].entry.width) == RightEdge(placed);
      }
      forall i | 0 <= i < |placed|
        ensures placed[i].pos.x + Ceil(placed[i].entry.width) <= RightEdge(placed)
      {
        if i < n { assert placed[i] == placed[..n][i]; }
      }
    }
  }

  lemma {:induction false} PlaceOneByOne(es: seq<Entry>, j: int)
    requires 0 <= j < |es|
    ensures Place(es)[..j] == Place(es[..j])
    ensures Place(es)[j] == Placed(es[j], PositionFor(Place(es[..j]), es[j]))
    decreases es
  {
    var n := |es| - 1;
    if j < n {
      PlaceOneByOne(es[..n], j);
      assert es[..n][..j] == es[..j];
      assert Place(es)[..n] == Place(es[..n]);
      assert Place(es)[..j] == Place(es[..n])[..j];
    } else {
      assert Place(es)[..n] == Place(es[..n]);
    }
  }

  // A configured output gets its position exactly if the checked rectangle is free of the outputs
  // placed before it; every other output goes right of all of those, at the top.
  lemma {:induction false} WhereAnOutputGoes(es: seq<Entry>, j: int)
    requires 0 <= j < |es|
    ensures var placed := Place(es);
            var e := es[j];
            && (e.config.Some? ==>
                  (placed[j].pos == e.config.value <==> IsFree(placed[..j], Target(e, e.config.value))))
            && (e.config.None? || !IsFree(placed[..j], Target(e, e.config.value)) ==>
                  && placed[j].pos.y == 0
                  && (forall i :: 0 <= i < j ==> BoundsOf(placed[i]).x + BoundsOf(placed[i]).w <= placed[j].pos.x)
                  && (j == 0 ==> placed[j].pos.x == 0)
                  && (j > 0 ==>
                        exists i :: 0 <= i < j && BoundsOf(placed[i]).x + BoundsOf(placed[i]).w == placed[j].pos.x))
  {
    PlaceOneByOne(es, j);
    var placed := Place(es);
    var before := placed[..j];
    RightEdgeBounds(before);
    if j > 0 {
      var i :| 0 <= i < |before| && before[i].pos.x + Ceil(before[i].entry.width) == RightEdge(before);
      assert BoundsOf(placed[i]).x + BoundsOf(placed[i]).w == RightEdge(before);
    }
    assert forall i :: 0 <= i < j ==> placed[i] == before[i];
  }

  // --- Overlaps ---------------------------------------------------------------------------------

  lemma RoundAndCeil(x: real)
    requires x >= 0.0
    ensures 0 <= Round(x) <= Ceil(x) <= Round(x) + 1
    ensures x == x.Floor as real ==> Round(x) == Ceil(x)
  {
    var f := x.Floor;
    if x == f as real {
      FloorIs(-x, -f);
      FloorIs(x + 0.5, f);
    } else {
      FloorIs(-x, -f - 1);
      FloorIs(x + 0.5, if x < f as real + 0.5 then f else f + 1);
    }
  }

  // What the placement guarantees for any sizes: the geometry of an earlier output never overlaps
  // the rounded rectangle of a later one.
  lemma {:induction false} EarlierOutputsClearOfTarget(es: seq<Entry>, i: int, j: int)
    requires 0 <= i < j < |es|
    ensures !Overlap(BoundsOf(Place(es)[i]), Target(es[j], Place(es)[j].pos))
  {
    PlaceOneByOne(es, j);
    var before := Place(es[..j]);
    assert Place(es)[i] == before[i];
    RightEdgeBounds(before);
  }

  ghost predicate Disjoint(placed: seq<Placed>) {
    forall i, j :: 0 <= i < j < |placed| ==> !Overlap(BoundsOf(placed[i]), BoundsOf(placed[j]))
  }

  // The same placement, with the overlap check on the geometry the output will have.
  function PlaceStrictly(es: seq<Entry>): (placed: seq<Placed>)
    ensures |placed| == |es|
  {
    if es == [] then []
    else
      var before := PlaceStrictly(es[..|es| - 1]);
      var e := es[|es| - 1];
      var free := e.config.Some? && IsFree(before, BoundsOf(Placed(e, e.config.value)));
      before + [Placed(e, if free then e.config.value else Point(RightEdge(before), 0))]
  }

  lemma {:induction false} StrictPlacementIsDisjoint(es: seq<Entry>)
    ensures Disjoint(PlaceStrictly(es))
    decreases es
  {
    if es != [] {
      StrictPlacementIsDisjoint(es[..|es| - 1]);
      RightEdgeBounds(PlaceStrictly(es[..|es| - 1]));
    }
  }

  predicate Fits(placed: seq<Placed>, e: Entry) {
    e.config.Some? && IsFree(placed, Target(e, e.config.value))
  }

  predicate FitsStrictly(placed: seq<Placed>, e: Entry) {
    e.config.Some? && IsFree(placed, BoundsOf(Placed(e, e.config.value)))
  }

  // No output passes the check on its rounded size that would fail it on the rounded-up one.
  ghost predicate RoundingIsHarmless(es: seq<Entry>) {
    forall j :: 0 <= j < |es| ==> RoundsWell(PlaceStrictly(es[..j]), es[j])
  }

  predicate RoundsWell(placed: seq<Placed>, e: Entry) {
    Fits(placed, e) ==> FitsStrictly(placed, e)
  }

  lemma StricterToFit(placed: seq<Placed>, e: Entry)
    requires e.Valid() && FitsStrictly(placed, e)
    ensures Fits(placed, e)
  {
    RoundAndCeil(e.width);
    RoundAndCeil(e.height);
  }

  lemma {:induction false} HarmlessMeansStrict(es: seq<Entry>)
    requires (forall i :: 0 <= i < |es| ==> es[i].Valid()) && RoundingIsHarmless(es)
    ensures Place(es) == PlaceStrictly(es)
    decreases es
  {
    if es != [] {
      var n := |es| - 1;
      assert forall j :: 0 <= j < n ==> es[..n][..j] == es[..j];
      HarmlessMeansStrict(es[..n]);
      if FitsStrictly(PlaceStrictly(es[..n]), es[n]) { StricterToFit(PlaceStrictly(es[..n]), es[n]); }
    }
  }

  lemma {:induction false} DisjointMeansHarmless(es: seq<Entry>)
    requires (forall i :: 0 <= i < |es| ==> es[i].Valid()) && Disjoint(Place(es))
    ensures RoundingIsHarmless(es)
    decreases es
  {
    if es != [] {
      DisjointPrefix(es);
      DisjointMeansHarmless(es[..|es| - 1]);
      HarmlessMeansStrict(es[..|es| - 1]);
      LastFitsStrictly(es);
      HarmlessExtends(es, |es| - 1);
    }
  }

  lemma {:induction false} HarmlessExtends(es: seq<Entry>, n: nat)
    requires |es| == n + 1 && RoundingIsHarmless(es[..n]) && RoundsWell(PlaceStrictly(es[..n]), es[n])
    ensures RoundingIsHarmless(es)
  {
    forall j | 0 <= j < |es| ensures RoundsWell(PlaceStrictly(es[..j]), es[j]) {
      if j < n {
        assert es[..n][..j] == es[..j] && es[..n][j] == es[j];
        assert RoundsWell(PlaceStrictly(es[..n][..j]), es[..n][j]);
      }
    }
  }

  lemma {:induction false} DisjointPrefix(es: seq<Entry>)
    requires es != [] && Disjoint(Place(es))
    ensures Disjoint(Place(es[..|es| - 1]))
  {
    var before := Place(es[..|es| - 1]);
    assert forall i :: 0 <= i < |before| ==> Place(es)[i] == before[i];
  }

  lemma {:induction false} LastFitsStrictly(es: seq<Entry>)
    requires es != [] && Disjoint(Place(es))
    ensures RoundsWell(Place(es[..|es| - 1]), es[|es| - 1])
  {
    var n := |es| - 1;
    var before := Place(es[..n]);
    if Fits(before, es[n]) {
      assert Place(es)[n] == Placed(es[n], es[n].config.value);
      forall i | 0 <= i < n ensures !Overlap(BoundsOf(before[i]), BoundsOf(Place(es)[n])) {
        assert Place(es)[i] == before[i];
      }
    }
  }

  // Placed outputs are free of overlaps exactly when rounding is harmless in this sense.
  lemma {:induction false} DisjointExactlyWhen(es: seq<Entry>)
    requires forall i :: 0 <= i < |es| ==> es[i].Valid()
    ensures Disjoint(Place(es)) <==> RoundingIsHarmless(es)
  {
    if RoundingIsHarmless(es) {
      HarmlessMeansStrict(es);
      StrictPlacementIsDisjoint(es);
    }
    if Disjoint(Place(es)) {
      DisjointMeansHarmless(es);
    }
  }

  // In particular outputs with whole logical sizes never overlap.
  lemma {:induction false} WholeSizesNeverOverlap(es: seq<Entry>)
    requires forall i :: 0 <= i < |es| ==>
               es[i].Valid() && es[i].width == es[i].width.Floor as real && es[i].height == es[i].height.Floor as real
    ensures Disjoint(Place(es))
  {
    forall i, j | 0 <= i < j < |es| ensures !Overlap(BoundsOf(Place(es)[i]), BoundsOf(Place(es)[j])) {
      EarlierOutputsClearOfTarget(es, i, j);
      RoundAndCeil(es[j].width);
      RoundAndCeil(es[j].height);
    }
  }

  lemma {:induction false} OneBehindTheOther(es: seq<Entry>)
    requires |es| == 2 && es[0].config == Some(Point(100, 0)) && es[1].config == Some(Point(0, 0))
    requires es[0].width == 50.0 && es[0].height == 50.0 && es[1].width == 100.4 && es[1].height == 50.0
    ensures Place(es)[1].pos == Point(0, 0) && !Disjoint(Place(es))
  {
    PlaceOneByOne(es, 0);
    PlaceOneByOne(es, 1);
    assert es[..0] == [] && es[..1] == [es[0]];
    assert Place([]) == [];
    assert IsFree([], Target(es[0], Point(100, 0)));
    assert Round(100.4) == 100 && Ceil(100.4) == 101;
    assert Place(es[..1]) == [Placed(es[0], Point(100, 0))];
    assert Overlap(BoundsOf(Place(es)[0]), BoundsOf(Place(es)[1]));
  }

  lemma {:induction false} InNameOrder(x: Entry, y: Entry)
    requires Compare(x.name, y.name) == Less && x.config.Some? && y.config.Some?
    ensures PlacementOrder([x, y]) == [x, y]
  {
    NamesOrdered(x.name, y.name);
    assert [x, y][1..] == [y] && [y][1..] == [];
    assert SortByName([y]) == [y];
    assert SortByName([x, y]) == [x, y];
    FilterAll([x, y]);
  }

  lemma {:induction false} FilterAll(es: seq<Entry>)
    requires forall i :: 0 <= i < |es| ==> es[i].config.Some?
    ensures Filter(es, true) == es && Filter(es, false) == []
    decreases es
  {
    if es != [] { FilterAll(es[1..]); }
  }

  // With a fractional width the check can be passed by an output that then overlaps: any two names
  // can be those of such outputs, in whatever order they arrive.
  lemma FractionalSizesCanOverlap(a: OutputName, b: OutputName)
    requires Compare(a, b) == Less
    ensures var x, y := Entry(a, Some(Point(100, 0)), 50.0, 50.0), Entry(b, Some(Point(0, 0)), 100.4, 50.0);
            && x.Valid() && y.Valid() && DistinctNames([x, y])
            && Reposition([x, y]) == Reposition([y, x])
            && !Disjoint(Reposition([x, y]))
  {
    var x, y := Entry(a, Some(Point(100, 0)), 50.0, 50.0), Entry(b, Some(Point(0, 0)), 100.4, 50.0);
    NamesOrdered(a, b);
    InNameOrder(x, y);
    OneBehindTheOther([x, y]);
    assert multiset([x, y]) == multiset([y, x]);
    PlacementIgnoresArrivalOrder([x, y], [y, x]);
  }

  // --- Repositioning in place -------------------------------------------------------------------

  function Entries(placed: seq<Placed>): (es: seq<Entry>)
    ensures |es| == |placed| && forall i :: 0 <= i < |es| ==> es[i] == placed[i].entry
  {
    seq(|placed|, i requires 0 <= i < |placed| => placed[i].entry)
  }

  function PositionOf(placed: seq<Placed>, name: OutputName): (pos: Option<Point>)
  {
    if placed == [] then None
    else if placed[0].entry.name == name then Some(placed[0].pos)
    else PositionOf(placed[1..], name)
  }

  lemma {:induction false} PositionOfEach(placed: seq<Placed>, i: int)
    requires 0 <= i < |placed| && DistinctNames(Entries(placed))
    ensures PositionOf(placed, placed[i].entry.name) == Some(placed[i].pos)
    decreases placed
  {
    if i > 0 {
      assert Entries(placed)[0].name != Entries(placed)[i].name;
      assert Entries(placed[1..]) == Entries(placed)[1..];
      PositionOfEach(placed[1..], i - 1);
    }
  }

  lemma {:induction false} FilterSplits(es: seq<Entry>)
    ensures multiset(Filter(es, true)) + multiset(Filter(es, false)) == multiset(es)
    decreases es
  {
    if es != [] {
      FilterSplits(es[1..]);
      assert es == [es[0]] + es[1..];
    }
  }

  lemma PlacementOrderPermutes(arrivals: seq<Entry>)
    ensures multiset(PlacementOrder(arrivals)) == multiset(arrivals)
  {
    FilterSplits(SortByName(arrivals));
  }

  // Placing what has been placed, in any order, moves nothing.
  lemma RepositionIsStable(a: seq<Entry>, b: seq<Entry>)
    requires DistinctNames(a) && multiset(b) == multiset(Entries(Reposition(a)))
    ensures Reposition(b) == Reposition(a)
  {
    assert Entries(Reposition(a)) == PlacementOrder(a);
    PlacementOrderPermutes(a);
    PlacementIgnoresArrivalOrder(a, b);
  }

  class GlobalSpace {
    // The mapped outputs, in the order they were mapped.
    var space: seq<Placed>
    var sortedOutputs: seq<OutputName>

    ghost predicate Valid()
      reads this
    {
      DistinctNames(Entries(space))
    }

    method HasRoomFor(target: Rectangle) returns (free: bool)
      ensures free <==> IsFree(space, target)
    {
      for i := 0 to |space|
        invariant forall k :: 0 <= k < i ==> !Overlap(BoundsOf(space[k]), target)
      {
        if Overlap(BoundsOf(space[i]), target) {
          return false;
        }
      }
      return true;
    }

    method FindRightEdge() returns (x: int)
      ensures x == RightEdge(space)
    {
      x := 0;
      for i := 0 to |space|
        invariant x == RightEdge(space[..i])
      {
        assert space[..i + 1][..i] == space[..i];
        var edge := space[i].pos.x + Ceil(space[i].entry.width);
        if i == 0 || x < edge {
          x := edge;
        }
      }
      assert space[..|space|] == space;
    }

    method ChoosePosition(e: Entry) returns (pos: Point)
      ensures pos == PositionFor(space, e)
    {
      var free := false;
      if e.config.Some? {
        free := HasRoomFor(Target(e, e.config.value));
      }
      if free {
        pos := e.config.value;
      } else {
        var x := FindRightEdge();
        pos := Point(x, 0);
      }
    }

    // Places every output afresh, with `added` among them, and reports which ones moved.
    method RepositionOutputs(added: Option<Entry>) returns (moved: set<OutputName>)
      requires Valid()
      requires added.Some? ==> forall i :: 0 <= i < |space| ==> space[i].entry.name != added.value.name
      modifies this
      ensures Valid()
      ensures space == Reposition(Arrivals(old(space), added))
      ensures sortedOutputs == Names(PlacementOrder(Arrivals(old(space), added)))
      ensures moved == Moved(old(space), space)
    {
      ghost var before := space;
      var order := PlacementOrder(Arrivals(space, added));
      sortedOutputs := Names(order);
      moved := PlaceInOrder(order);
      RepositionKeepsDistinct(before, added);
    }

    method PlaceInOrder(order: seq<Entry>) returns (moved: set<OutputName>)
      modifies this`space
      ensures space == Place(order)
      ensures moved == Moved(old(space), space)
    {
      var before := space;
      space, moved := [], {};
      for k := 0 to |order|
        invariant space == Place(order[..k])
        invariant moved == Moved(before, space)
      {
        var e := order[k];
        var pos := ChoosePosition(e);
        PlaceNext(order, k);
        MovedNext(before, space, Placed(e, pos));
        space := space + [Placed(e, pos)];
        if PositionOf(before, e.name) != Some(pos) {
          moved := moved + {e.name};
        }
      }
      assert order[..|order|] == order;
    }
  }

  function Arrivals(space: seq<Placed>, added: Option<Entry>): seq<Entry> {
    Entries(space) + (if added.Some? then [added.value] else [])
  }

  function Names(es: seq<Entry>): seq<OutputName> {
    seq(|es|, i requires 0 <= i < |es| => es[i].name)
  }

  function Moved(before: seq<Placed>, placed: seq<Placed>): set<OutputName> {
    if placed == [] then {}
    else
      var last := placed[|placed| - 1];
      Moved(before, placed[..|placed| - 1])
      + (if PositionOf(before, last.entry.name) != Some(last.pos) then {last.entry.name} else {})
  }

  lemma PlaceNext(es: seq<Entry>, k: int)
    requires 0 <= k < |es|
    ensures Place(es[..k + 1]) == Place(es[..k]) + [Placed(es[k], PositionFor(Place(es[..k]), es[k]))]
  {
    assert es[..k + 1][..k] == es[..k];
  }

  lemma {:induction false} MovedNext(before: seq<Placed>, placed: seq<Placed>, p: Placed)
    ensures Moved(before, placed + [p]) ==
            Moved(before, placed) + (if PositionOf(before, p.entry.name) != Some(p.pos) then {p.entry.name} else {})
  {
    assert (placed + [p])[..|placed|] == placed;
  }

  lemma RepositionKeepsDistinct(space: seq<Placed>, added: Option<Entry>)
    requires DistinctNames(Entries(space))
    requires added.Some? ==> forall i :: 0 <= i < |space| ==> space[i].entry.name != added.value.name
    ensures DistinctNames(Entries(Reposition(Arrivals(space, added))))
  {
    var arrivals := Arrivals(space, added);
    assert Entries(Reposition(arrivals)) == PlacementOrder(arrivals);
    PlacementOrderPermutes(arrivals);
    PermutationKeepsDistinct(arrivals, PlacementOrder(arrivals));
  }

  // The outputs that are redrawn after repositioning are the new one and those at a new place.
  lemma {:induction false} MovedExactly(before: seq<Placed>, placed: seq<Placed>, name: OutputName)
    ensures name in Moved(before, placed) <==>
              exists i :: 0 <= i < |placed| && placed[i].entry.name == name
                          && PositionOf(before, name) != Some(placed[i].pos)
    decreases placed
  {
    if placed != [] {
      var n := |placed| - 1;
      MovedExactly(before, placed[..n], name);
      assert forall i :: 0 <= i < n ==> placed[..n][i] == placed[i];
      if name in Moved(before, placed[..n]) {
        var i :| 0 <= i < n && placed[..n][i].entry.name == name
                 && PositionOf(before, name) != Some(placed[..n][i].pos);
        assert placed[i].entry.name == name;
      }
    }
  }

  // A call that adds nothing to a space that this code laid out leaves every output in place.
  lemma SecondCallMovesNothing(a: seq<Entry>)
    requires DistinctNames(a)
    ensures var space := Reposition(a);
            Reposition(Arrivals(space, None)) == space && Moved(space, space) == {}
  {
    var space := Reposition(a);
    assert Arrivals(space, None) == Entries(space) == PlacementOrder(a);
    RepositionIsStable(a, Entries(space));
    PlacementOrderPermutes(a);
    PermutationKeepsDistinct(a, PlacementOrder(a));
    forall name ensures name !in Moved(space, space) {
      MovedExactly(space, space, name);
      forall i | 0 <= i < |space| ensures PositionOf(space, space[i].entry.name) == Some(space[i].pos) {
        PositionOfEach(space, i);
      }
    }
  }
}
