/**
 Facts about division and rounding that several modules need.
 */
module Arithmetic {

  lemma MulMonotone(a: nat, b: nat, c: nat)
    requires a <= b
    ensures a * c <= b * c
  {
  }

  lemma DivisionBounds(a: nat, b: nat)
    requires b > 0
    ensures (a / b) * b <= a < (a / b + 1) * b
  {
  }

  lemma QuotientIs(a: nat, b: nat, q: nat)
    requires b > 0 && q * b <= a < (q + 1) * b
    ensures a / b == q
  {
    DivisionBounds(a, b);
    if a / b < q {
      MulMonotone(a / b + 1, q, b);
    } else if a / b > q {
      MulMonotone(q + 1, a / b, b);
    }
  }

  lemma FloorIs(x: real, k: int)
    requires k as real <= x < k as real + 1.0
    ensures x.Floor == k
  {
    assert x.Floor as real <= x < (x.Floor + 1) as real;
    assert k as real < (x.Floor + 1) as real && x.Floor as real < (k + 1) as real;
  }

  lemma ScaleLess(a: real, b: real, s: real)
    requires a < b && s > 0.0
    ensures a * s < b * s
  {
    var d := b - a;
    assert d * s > 0.0;
    assert b * s == a * s + d * s;
  }

  lemma Unscale(a: real, b: real, s: real)
    requires a * s < b * s && s > 0.0
    ensures a < b
  {
    if b < a {
      ScaleLess(b, a, s);
    }
  }

  // A non-negative amount is a whole number of units and a rest below one unit.
  lemma WholeUnits(x: real, unit: real) returns (k: nat)
    requires x >= 0.0 && unit > 0.0
    ensures k == (x / unit).Floor && k as real * unit <= x < k as real * unit + unit
  {
    var q := x / unit;
    assert q * unit == x;
    if q < 0.0 {
      ScaleLess(q, 0.0, unit);
    }
    k := q.Floor;
    FloorBounds(q, k as real, x, unit);
  }

  lemma FloorBounds(q: real, k: real, x: real, unit: real)
    requires unit > 0.0 && q * unit == x && k <= q < k + 1.0
    ensures k * unit <= x < k * unit + unit
  {
    var d := q - k;
    FractionOf(d, unit);
    assert x == (k + d) * unit;
    assert (k + d) * unit == k * unit + d * unit;
  }

  lemma FractionOf(d: real, unit: real)
    requires 0.0 <= d < 1.0 && unit > 0.0
    ensures 0.0 <= d * unit < unit
  {
    assert (1.0 - d) * unit > 0.0;
    assert (1.0 - d) * unit == unit - d * unit;
  }

  // How many whole units `x` holds, compared with a count.
  lemma UnitsBelow(k: int, c: int, x: real, unit: real)
    requires unit > 0.0 && k as real * unit <= x < k as real * unit + unit
    ensures k < c <==> x < c as real * unit
  {
    if x < c as real * unit {
      Unscale(k as real, c as real, unit);
    } else {
      assert (k as real + 1.0) * unit == k as real * unit + unit;
      Unscale(c as real, k as real + 1.0, unit);
    }
  }

  lemma UnitsUnique(k: int, m: int, x: real, unit: real)
    requires unit > 0.0
    requires k as real * unit <= x < k as real * unit + unit
    requires m as real * unit <= x < m as real * unit + unit
    ensures k == m
  {
    UnitsBelow(k, m, x, unit);
    UnitsBelow(m, k, x, unit);
  }
}
