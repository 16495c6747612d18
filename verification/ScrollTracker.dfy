/**
 Turning scroll amounts into whole ticks. Over the reals; ticks are returned as 8-bit integers.
 */
module ScrollTracker {
  import opened Arithmetic

  // Casting a float to an integer cuts its fraction off.
  function Truncate(x: real): int {
    if x >= 0.0 then x.Floor else -((-x).Floor)
  }

  // Integer division rounds towards zero.
  function Quotient(a: int, b: nat): int
    requires b > 0
  {
    if a >= 0 then a / b else -((-a) / b)
  }

  // The remainder of that division, for floats.
  function Remainder(x: real, tick: nat): real
    requires tick > 0
  {
    x - WholeTicks(x, tick as real) as real * tick as real
  }

  function Clamp(x: real, limit: real): real {
    if x < -limit then -limit else if x > limit then limit else x
  }

  predicate ChangedDirection(last: real, amount: real) {
    (last > 0.0 && amount < 0.0) || (last < 0.0 && amount > 0.0)
  }

  // What has built up, with the new amount.
  function Total(last: real, acc: real, amount: real): real {
    (if ChangedDirection(last, amount) then 0.0 else acc) + amount
  }

  // The whole ticks in `total`, with its sign.
  function WholeTicks(total: real, tick: real): int
    requires tick > 0.0
  {
    Truncate(total / tick)
  }

  function ClampTicks(ticks: int): int {
    if ticks < -127 then -127 else if ticks > 127 then 127 else ticks
  }

  class ScrollTracker {
    const tick: nat
    var last: real
    var acc: real

    // Ticks are positive 8-bit integers.
    constructor (tick: nat)
      requires 0 < tick <= 127
      ensures this.tick == tick && last == 0.0 && acc == 0.0
    {
      this.tick := tick;
      last, acc := 0.0, 0.0;
    }

    method Accumulate(amount: real) returns (ticks: int)
      requires tick > 0
      modifies this
      ensures last == amount
      ensures ticks == ClampTicks(WholeTicks(Total(old(last), old(acc), amount), tick as real))
      ensures acc == Remainder(Total(old(last), old(acc), amount), tick)
    {
      if ChangedDirection(last, amount) {
        acc := 0.0;
      }
      last := amount;
      acc := acc + amount;
      ticks := 0;
      TicksTaken(acc, tick);
      if acc >= tick as real || -acc >= tick as real {
        var clamped := Clamp(acc, 127.0 * tick as real);
        ticks := Quotient(Truncate(clamped), tick);
        acc := Remainder(acc, tick);
      }
    }

    method Reset()
      modifies this
      ensures last == 0.0 && acc == 0.0
    {
      last, acc := 0.0, 0.0;
    }
  }

  lemma Mirror(x: real, tick: real)
    requires tick > 0.0
    ensures WholeTicks(-x, tick) == -WholeTicks(x, tick)
  {
    assert (-x) / tick == -(x / tick);
  }

  lemma WholeTicksBounds(x: real, tick: real)
    requires x >= 0.0 && tick > 0.0
    ensures var k := WholeTicks(x, tick);
            k >= 0 && k as real * tick <= x < k as real * tick + tick
  {
    var k := WholeUnits(x, tick);
  }

  lemma WholeTicksAre(x: real, tick: real, k: nat)
    requires tick > 0.0 && x >= 0.0 && k as real * tick <= x < k as real * tick + tick
    ensures WholeTicks(x, tick) == k
  {
    WholeTicksBounds(x, tick);
    UnitsUnique(k, WholeTicks(x, tick), x, tick);
  }

  lemma BelowOneTick(x: real, tick: real)
    requires tick > 0.0 && -tick < x < tick
    ensures WholeTicks(x, tick) == 0
  {
    if x >= 0.0 {
      WholeTicksAre(x, tick, 0);
    } else {
      WholeTicksAre(-x, tick, 0);
      Mirror(x, tick);
    }
  }

  // Cutting the fraction off before dividing does not change the number of ticks.
  lemma TruncateThenDivide(x: real, tick: nat)
    requires x >= 0.0 && tick > 0
    ensures Quotient(Truncate(x), tick) == WholeTicks(x, tick as real)
  {
    var k := WholeTicks(x, tick as real);
    WholeTicksBounds(x, tick as real);
    assert (k * tick) as real == k as real * tick as real;
    assert ((k + 1) * tick) as real == k as real * tick as real + tick as real;
    assert k * tick <= x.Floor < (k + 1) * tick;
    QuotientIs(x.Floor, tick, k);
  }

  // Clamping the amount clamps the ticks.
  lemma WholeTicksOfClamped(x: real, tick: real)
    requires tick > 0.0 && x >= 0.0
    ensures WholeTicks(Clamp(x, 127.0 * tick), tick) == ClampTicks(WholeTicks(x, tick))
  {
    WholeTicksBounds(x, tick);
    UnitsBelow(WholeTicks(x, tick), 127, x, tick);
    UnitsBelow(WholeTicks(x, tick), 128, x, tick);
    WholeTicksAre(127.0 * tick, tick, 127);
  }

  lemma TicksOfClamped(x: real, tick: nat)
    requires tick > 0 && x >= 0.0
    ensures Quotient(Truncate(Clamp(x, 127.0 * tick as real)), tick) == ClampTicks(WholeTicks(x, tick as real))
  {
    WholeTicksOfClamped(x, tick as real);
    TruncateThenDivide(Clamp(x, 127.0 * tick as real), tick);
  }

  lemma MirrorClamped(x: real, tick: nat)
    requires tick > 0
    ensures Quotient(Truncate(Clamp(-x, 127.0 * tick as real)), tick) ==
            -Quotient(Truncate(Clamp(x, 127.0 * tick as real)), tick)
  {
    var bound := 127.0 * tick as real;
    MirrorClamp(x, bound);
    MirrorTruncate(Clamp(x, bound));
    MirrorQuotient(Truncate(Clamp(x, bound)), tick);
  }

  lemma MirrorClamp(x: real, bound: real)
    requires bound >= 0.0
    ensures Clamp(-x, bound) == -Clamp(x, bound)
  {
  }

  lemma MirrorTruncate(x: real)
    ensures Truncate(-x) == -Truncate(x)
  {
  }

  lemma MirrorQuotient(n: int, tick: nat)
    requires tick > 0
    ensures Quotient(-n, tick) == -Quotient(n, tick)
  {
  }

  // What the code computes from the total, in terms of its whole ticks.
  lemma TicksTaken(x: real, tick: nat)
    requires tick > 0
    ensures Quotient(Truncate(Clamp(x, 127.0 * tick as real)), tick) == ClampTicks(WholeTicks(x, tick as real))
    ensures -(tick as real) < x < tick as real ==> WholeTicks(x, tick as real) == 0 && Remainder(x, tick) == x
  {
    if x < 0.0 {
      TicksOfClamped(-x, tick);
      Mirror(x, tick as real);
      MirrorClamped(x, tick);
    } else {
      TicksOfClamped(x, tick);
    }
    if -(tick as real) < x < tick as real {
      BelowOneTick(x, tick as real);
    }
  }

  // Less than one tick is ever left over.
  lemma RemainderIsBelowOneTick(total: real, tick: nat)
    requires tick > 0
    ensures -(tick as real) < Remainder(total, tick) < tick as real
    ensures total >= 0.0 ==> Remainder(total, tick) >= 0.0
    ensures total <= 0.0 ==> Remainder(total, tick) <= 0.0
  {
    if total < 0.0 {
      Mirror(total, tick as real);
      WholeTicksBounds(-total, tick as real);
    } else {
      WholeTicksBounds(total, tick as real);
    }
  }

  // Nothing scrolled is lost or made up in a call, exactly if the ticks fit: below 128 of them.
  lemma CallConservesExactlyWhen(total: real, tick: nat)
    requires tick > 0
    ensures ClampTicks(WholeTicks(total, tick as real)) as real * tick as real + Remainder(total, tick) == total
            <==> -128.0 * tick as real < total < 128.0 * tick as real
  {
    var k := WholeTicks(total, tick as real);
    FitsExactlyWhen(total, tick as real);
    SameProduct(ClampTicks(k), k, tick as real);
  }

  // From there on ticks are lost: of 128 only 127 are returned, and nothing stays.
  lemma ClampingLosesATick(tick: nat)
    requires tick > 0
    ensures var total := 128.0 * tick as real;
            && ClampTicks(WholeTicks(total, tick as real)) == 127
            && Remainder(total, tick) == 0.0
            && 127.0 * tick as real + Remainder(total, tick) < total
  {
    var unit := tick as real;
    WholeTicksAre(128.0 * unit, unit, 128);
  }

  lemma SameProduct(a: int, b: int, s: real)
    requires s > 0.0
    ensures a as real * s == b as real * s <==> a == b
  {
    if a < b { ScaleLess(a as real, b as real, s); }
    if b < a { ScaleLess(b as real, a as real, s); }
  }

  lemma FitsExactlyWhen(x: real, tick: real)
    requires tick > 0.0
    ensures -127 <= WholeTicks(x, tick) <= 127 <==> -128.0 * tick < x < 128.0 * tick
  {
    if x < 0.0 {
      Mirror(x, tick);
      WholeTicksBounds(-x, tick);
      UnitsBelow(WholeTicks(-x, tick), 128, -x, tick);
    } else {
      WholeTicksBounds(x, tick);
      UnitsBelow(WholeTicks(x, tick), 128, x, tick);
    }
  }

  // What has built up is dropped exactly when the direction turns.
  lemma DroppedExactlyWhen(last: real, acc: real, amount: real)
    ensures Total(last, acc, amount) == if last * amount < 0.0 then amount else acc + amount
  {
    OppositeSigns(last, amount, last * amount);
  }

  lemma OppositeSigns(a: real, b: real, product: real)
    requires product == a * b
    ensures product < 0.0 <==> (a > 0.0 && b < 0.0) || (a < 0.0 && b > 0.0)
  {
    if a > 0.0 && b > 0.0 {
      PositiveProduct(a, b, product);
    } else if a < 0.0 && b < 0.0 {
      PositiveProduct(-a, -b, product);
    } else if a > 0.0 && b < 0.0 {
      PositiveProduct(a, -b, -product);
    } else if a < 0.0 && b > 0.0 {
      PositiveProduct(-a, b, -product);
    }
  }

  lemma PositiveProduct(a: real, b: real, product: real)
    requires a > 0.0 && b > 0.0 && product == a * b
    ensures product > 0.0
  {
  }

  // --- Runs ---------------------------------------------------------------------------------------

  function Sum(amounts: seq<real>): real {
    if amounts == [] then 0.0 else amounts[0] + Sum(amounts[1..])
  }

  // How one call splits its total into returned ticks and what stays.
  function Split(tick: nat): real -> (int, real)
    requires tick > 0
  {
    total => (ClampTicks(WholeTicks(total, tick as real)), Remainder(total, tick))
  }

  // The ticks returned and the rest left by a run of calls.
  function Scroll(split: real -> (int, real), last: real, acc: real, amounts: seq<real>): (int, real)
    decreases amounts
  {
    if amounts == [] then (0, acc)
    else
      var (taken, left) := split(Total(last, acc, amounts[0]));
      var (ticks, rest) := Scroll(split, amounts[0], left, amounts[1..]);
      (taken + ticks, rest)
  }

  // No call turns round, and none builds up `limit` or more.
  predicate Steady(split: real -> (int, real), limit: real, last: real, acc: real, amounts: seq<real>)
    decreases amounts
  {
    amounts == [] ||
    (var total := Total(last, acc, amounts[0]);
     && !ChangedDirection(last, amounts[0])
     && -limit < total < limit
     && Steady(split, limit, amounts[0], split(total).1, amounts[1..]))
  }

  ghost predicate Conserves(split: real -> (int, real), limit: real, tick: real) {
    forall total: real :: -limit < total < limit ==> split(total).0 as real * tick + split(total).1 == total
  }

  lemma {:induction false} RunConserves(split: real -> (int, real), limit: real, tick: real,
                                        last: real, acc: real, amounts: seq<real>)
    requires Conserves(split, limit, tick) && Steady(split, limit, last, acc, amounts)
    ensures AddsUp(split, tick, last, acc, amounts)
    decreases amounts
  {
    if amounts != [] {
      var total := Total(last, acc, amounts[0]);
      var (taken, left) := split(total);
      RunConserves(split, limit, tick, amounts[0], left, amounts[1..]);
      var (ticks, rest) := Scroll(split, amounts[0], left, amounts[1..]);
      AddUp(taken, ticks, tick, total, left, Sum(amounts[1..]), rest);
    }
  }

  lemma AddUp(a: int, b: int, s: real, total: real, left: real, more: real, rest: real)
    requires a as real * s + left == total && b as real * s + rest == left + more
    ensures (a + b) as real * s + rest == total + more
  {
    assert (a + b) as real == a as real + b as real;
    assert (a as real + b as real) * s == a as real * s + b as real * s;
  }

  lemma SplitConserves(tick: nat)
    requires tick > 0
    ensures Conserves(Split(tick), 128.0 * tick as real, tick as real)
  {
    var split, limit := Split(tick), 128.0 * tick as real;
    forall total: real | -limit < total < limit
      ensures split(total).0 as real * tick as real + split(total).1 == total
    {
      CallConservesExactlyWhen(total, tick);
    }
  }

  ghost predicate AddsUp(split: real -> (int, real), tick: real, last: real, acc: real, amounts: seq<real>) {
    var result := Scroll(split, last, acc, amounts);
    result.0 as real * tick + result.1 == acc + Sum(amounts)
  }

  // Over a run that does not turn round and stays below 128 ticks a call, the returned ticks and the
  // rest add up to everything scrolled, though each call rounds twice.
  lemma ScrollConserves(tick: nat, last: real, acc: real, amounts: seq<real>)
    requires tick > 0 && Steady(Split(tick), 128.0 * tick as real, last, acc, amounts)
    ensures AddsUp(Split(tick), tick as real, last, acc, amounts)
  {
    RunConserves(Split(tick), 128.0 * tick as real, tick as real, last, acc, amounts) by {
      SplitConserves(tick);
    }
  }
}
