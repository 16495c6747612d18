/**
 The order in which outputs are placed, stated on names and configured positions, and what it means
 for who gets which place.
 */
module OutputOrder {
  import opened Arithmetic
  import opened Geometry
  import opened Options
  import opened OutputNames
  import opened OutputPlacement

  // --- Names ------------------------------------------------------------------------------------

  // Equal up to position i, where a ends or has the smaller character.
  predicate DiffersAt(a: string, b: string, i: int) {
    0 <= i <= |a| && i < |b| && a[..i] == b[..i] && (i < |a| ==> a[i] < b[i])
  }

  ghost predicate StringLess(a: string, b: string) {
    exists i :: DiffersAt(a, b, i)
  }

  ghost predicate OptionLess(a: Option<string>, b: Option<string>) {
    b.Some? && (a.None? || StringLess(a.value, b.value))
  }

  lemma {:induction false} StringsLexicographic(a: string, b: string)
    ensures CompareStrings(a, b) == Less <==> StringLess(a, b)
    decreases a
  {
    if a == [] {
      if b != [] { assert DiffersAt(a, b, 0); }
    } else if b != [] {
      if a[0] < b[0] {
        assert DiffersAt(a, b, 0);
      } else if a[0] == b[0] {
        StringsLexicographic(a[1..], b[1..]);
        forall i | 0 <= i < |b| ensures DiffersAt(a, b, i) <==> i > 0 && DiffersAt(a[1..], b[1..], i - 1) {
          DiffersLater(a, b, i);
        }
      } else {
        forall i ensures !DiffersAt(a, b, i) {
          if 0 < i <= |a| && i < |b| { assert a[..i][0] == a[0] && b[..i][0] == b[0]; }
        }
      }
    }
    if StringLess(a, b) && a != [] && b != [] && a[0] == b[0] {
      var i :| DiffersAt(a, b, i);
      assert DiffersAt(a[1..], b[1..], i - 1);
    }
    if a != [] && b != [] && a[0] == b[0] && StringLess(a[1..], b[1..]) {
      var i :| DiffersAt(a[1..], b[1..], i);
      DiffersLater(a, b, i + 1);
    }
  }

  lemma DiffersLater(a: string, b: string, i: int)
    requires a != [] && b != [] && a[0] == b[0] && 0 <= i < |b|
    ensures DiffersAt(a, b, i) <==> i > 0 && DiffersAt(a[1..], b[1..], i - 1)
  {
    if 0 < i <= |a| {
      assert a[..i] == [a[0]] + a[1..][..i - 1] && b[..i] == [b[0]] + b[1..][..i - 1];
      assert a[..i][1..] == a[1..][..i - 1] && b[..i][1..] == b[1..][..i - 1];
    }
  }

  // An output without make, model and serial comes after those with one; among these, make, model and
  // serial decide in turn, and the connector last; among the others the connector alone.
  lemma NamesCompareExactly(a: OutputName, b: OutputName)
    ensures Compare(a, b) == Less <==>
            if a.IsUnnamed() || b.IsUnnamed()
            then b.IsUnnamed() && (a.IsUnnamed() ==> StringLess(a.connector, b.connector))
            else
              || OptionLess(a.make, b.make)
              || (a.make == b.make && OptionLess(a.model, b.model))
              || (a.make == b.make && a.model == b.model && OptionLess(a.serial, b.serial))
              || (a.make == b.make && a.model == b.model && a.serial == b.serial
                  && StringLess(a.connector, b.connector))
  {
    OptionsExactly(a.make, b.make);
    OptionsExactly(a.model, b.model);
    OptionsExactly(a.serial, b.serial);
    StringsLexicographic(a.connector, b.connector);
  }

  lemma OptionsExactly(a: Option<string>, b: Option<string>)
    ensures CompareOptions(a, b) == Less <==> OptionLess(a, b)
    ensures CompareOptions(a, b) == Equal <==> a == b
  {
    OptionsOrdered(a, b);
    if a.Some? && b.Some? { StringsLexicographic(a.value, b.value); }
  }

  // --- The order of placement -------------------------------------------------------------------

  lemma {:induction false} FilteredFrom(es: seq<Entry>, configured: bool)
    ensures forall i :: 0 <= i < |Filter(es, configured)| ==>
              Filter(es, configured)[i] in es && Filter(es, configured)[i].config.Some? == configured
    decreases es
  {
    if es != [] { FilteredFrom(es[1..], configured); }
  }

  lemma {:induction false} FilterKeepsOrder(es: seq<Entry>, configured: bool)
    requires SortedByName(es)
    ensures SortedByName(Filter(es, configured))
    decreases es
  {
    if es != [] {
      FilterKeepsOrder(es[1..], configured);
      FilteredFrom(es[1..], configured);
      forall e | e in es[1..] ensures Compare(es[0].name, e.name) == Less {
        var k :| 0 <= k < |es[1..]| && es[1..][k] == e;
      }
    }
  }

  ghost predicate InPlacementOrder(e: Entry, f: Entry) {
    && (f.config.Some? ==> e.config.Some?)
    && (f.config.Some? == e.config.Some? ==> Compare(e.name, f.name) == Less)
  }

  // Outputs with a configured position come first, and within each group names ascend.
  lemma PlacedInOrder(arrivals: seq<Entry>, i: int, j: int)
    requires DistinctNames(arrivals) && 0 <= i < j < |arrivals|
    ensures |Reposition(arrivals)| == |arrivals|
    ensures InPlacementOrder(Reposition(arrivals)[i].entry, Reposition(arrivals)[j].entry)
  {
    var sorted := SortByName(arrivals);
    SortSorts(arrivals);
    PlacementOrderPermutes(arrivals);
    assert |multiset(PlacementOrder(arrivals))| == |multiset(arrivals)|;
    FilteredFrom(sorted, true);
    FilteredFrom(sorted, false);
    FilterKeepsOrder(sorted, true);
    FilterKeepsOrder(sorted, false);
  }

  lemma {:induction false} FilterOfMultiset(a: seq<Entry>, b: seq<Entry>, configured: bool)
    requires multiset(a) == multiset(b)
    ensures multiset(Filter(a, configured)) == multiset(Filter(b, configured))
  {
    FilterCounts(a, configured);
    FilterCounts(b, configured);
    forall e ensures multiset(Filter(a, configured))[e] == multiset(Filter(b, configured))[e] {
    }
  }

  lemma {:induction false} FilterCounts(es: seq<Entry>, configured: bool)
    ensures forall e :: multiset(Filter(es, configured))[e] ==
                        if e.config.Some? == configured then multiset(es)[e] else 0
    decreases es
  {
    if es != [] {
      FilterCounts(es[1..], configured);
      assert es == [es[0]] + es[1..];
    }
  }

  lemma {:induction false} FilterOfFiltered(es: seq<Entry>, configured: bool)
    ensures Filter(Filter(es, configured), configured) == Filter(es, configured)
    ensures Filter(Filter(es, configured), !configured) == []
    decreases es
  {
    if es != [] {
      FilterOfFiltered(es[1..], configured);
      var rest := Filter(es[1..], configured);
      if es[0].config.Some? == configured {
        assert Filter(es, configured) == [es[0]] + rest && ([es[0]] + rest)[1..] == rest;
      } else {
        assert Filter(es, configured) == rest;
      }
    }
  }

  lemma {:induction false} FilterKeepsDistinct(es: seq<Entry>, configured: bool)
    requires DistinctNames(es)
    ensures DistinctNames(Filter(es, configured))
    decreases es
  {
    if es != [] {
      FilterKeepsDistinct(es[1..], configured);
      FilteredFrom(es[1..], configured);
      forall e | e in es[1..] ensures es[0].name != e.name {
        var k :| 0 <= k < |es[1..]| && es[1..][k] == e;
      }
    }
  }

  lemma {:induction false} SortingConfigured(arrivals: seq<Entry>)
    requires DistinctNames(arrivals)
    ensures PlacementOrder(Filter(arrivals, true)) == Filter(SortByName(arrivals), true)
  {
    var only := Filter(arrivals, true);
    SortSorts(arrivals);
    FilterKeepsOrder(SortByName(arrivals), true);
    FilterKeepsDistinct(arrivals, true);
    SortSorts(only);
    FilterOfMultiset(SortByName(arrivals), arrivals, true);
    SortedIsUnique(SortByName(only), Filter(SortByName(arrivals), true));
    FilterOfFiltered(SortByName(arrivals), true);
  }

  lemma {:induction false} PlacePrefix(es: seq<Entry>, more: seq<Entry>)
    ensures Place(es + more)[..|es|] == Place(es)
  {
    var all := es + more;
    if more == [] {
      assert all == es;
    } else {
      PlaceOneByOne(all, |es|);
      assert all[..|es|] == es;
    }
  }

  // Outputs with a configured position are placed as if there were no others.
  lemma {:induction false} UnconfiguredDoNotMatter(arrivals: seq<Entry>)
    requires DistinctNames(arrivals)
    ensures var only := Filter(arrivals, true);
            |only| <= |Reposition(arrivals)| && Reposition(arrivals)[..|only|] == Reposition(only)
  {
    var only, sorted := Filter(arrivals, true), SortByName(arrivals);
    SortingConfigured(arrivals);
    FilterOfMultiset(sorted, arrivals, true);
    assert |multiset(Filter(sorted, true))| == |multiset(only)|;
    PlacePrefix(Filter(sorted, true), Filter(sorted, false));
  }

  lemma FreeOfTheFirst(placed: seq<Placed>, j: int, target: Rectangle)
    requires 0 <= j <= |placed|
    ensures IsFree(placed[..j], target) <==> forall i :: 0 <= i < j ==> !Overlap(BoundsOf(placed[i]), target)
  {
    assert forall i :: 0 <= i < j ==> placed[..j][i] == placed[i];
  }

  // An output gets its configured position exactly if that is free of the configured outputs with
  // smaller names.
  lemma ConfiguredPositionExactlyWhen(arrivals: seq<Entry>, j: int)
    requires DistinctNames(arrivals) && 0 <= j < |Reposition(arrivals)| && Reposition(arrivals)[j].entry.config.Some?
    ensures var placed := Reposition(arrivals);
            var e := placed[j].entry;
            placed[j].pos == e.config.value <==>
            forall i :: 0 <= i < |placed| && placed[i].entry.config.Some?
                        && Compare(placed[i].entry.name, e.name) == Less ==>
                          !Overlap(BoundsOf(placed[i]), Target(e, e.config.value))
  {
    var placed, order := Reposition(arrivals), PlacementOrder(arrivals);
    var e := placed[j].entry;
    PlacementOrderPermutes(arrivals);
    assert |multiset(order)| == |multiset(arrivals)|;
    WhereAnOutputGoes(order, j);
    forall i | 0 <= i < |placed|
      ensures i < j <==> placed[i].entry.config.Some? && Compare(placed[i].entry.name, e.name) == Less
    {
      NamesOrdered(placed[i].entry.name, e.name);
      if i < j { PlacedInOrder(arrivals, i, j); }
      if j < i { PlacedInOrder(arrivals, j, i); }
    }
    FreeOfTheFirst(placed, j, Target(e, e.config.value));
  }

  // --- Sizes ------------------------------------------------------------------------------------

  // Rounding goes to the nearest whole number, and up from the middle; rounding up to the least one
  // that is not smaller.
  lemma RoundedExactly(x: real, n: int)
    ensures Round(x) == n <==> n as real - 0.5 <= x < n as real + 0.5
    ensures Ceil(x) == n <==> n as real - 1.0 < x <= n as real
  {
    if n as real - 0.5 <= x < n as real + 0.5 { FloorIs(x + 0.5, n); }
    if n as real - 1.0 < x <= n as real { FloorIs(-x, -n); }
    var r, c := Round(x), Ceil(x);
    assert r as real <= x + 0.5 < (r + 1) as real;
    assert (-c) as real <= -x < (-c + 1) as real;
  }
}
