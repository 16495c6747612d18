/**
 Cubic Bezier easing: the curve's x coordinate is inverted by bisection. Over the reals.
 */
module Bezier {

  datatype CubicBezier = CubicBezier(x1: real, y1: real, x2: real, y2: real)

  const EPSILON: real := 1.0 / 4503599627370496.0

  // One coordinate of the curve from 0 to 1 with control values `p1` and `p2`.
  function Coordinate(p1: real, p2: real, t: real): real {
    var omt := 1.0 - t;
    3.0 * omt * omt * t * p1 + 3.0 * omt * t * t * p2 + t * t * t
  }

  function XForT(b: CubicBezier, t: real): real {
    Coordinate(b.x1, b.x2, t)
  }

  function YForT(b: CubicBezier, t: real): real {
    Coordinate(b.y1, b.y2, t)
  }

  // The interval left after `n` halvings of [lo, hi] in search of the point where `f` reaches `x`.
  function Narrow(f: real -> real, x: real, lo: real, hi: real, n: nat): (real, real)
    decreases n
  {
    if n == 0 then (lo, hi)
    else
      var guess := (lo + hi) / 2.0;
      if x < f(guess) then Narrow(f, x, lo, guess, n - 1) else Narrow(f, x, guess, hi, n - 1)
  }

  function Middle(interval: (real, real)): real {
    (interval.0 + interval.1) / 2.0
  }

  const STEPS: nat := 31

  function Bracket(b: CubicBezier, x: real): (real, real) {
    Narrow(t => XForT(b, t), x, 0.0, 1.0, STEPS)
  }

  function TForX(b: CubicBezier, x: real): real {
    Middle(Bracket(b, x))
  }

  method ComputeTForX(b: CubicBezier, x: real) returns (t: real)
    ensures t == TForX(b, x)
  {
    var minT, maxT := 0.0, 1.0;
    ghost var f := t => XForT(b, t);
    for i := 0 to 31
      invariant Narrow(f, x, minT, maxT, 31 - i) == Narrow(f, x, 0.0, 1.0, STEPS)
    {
      var guessT := (minT + maxT) / 2.0;
      var guessX := XForT(b, guessT);
      if x < guessX {
        maxT := guessT;
      } else {
        minT := guessT;
      }
    }
    t := (minT + maxT) / 2.0;
  }

  function Ease(b: CubicBezier, x: real): real {
    if x <= EPSILON then 0.0
    else if 1.0 - EPSILON <= x then 1.0
    else YForT(b, TForX(b, x))
  }

  // --- The curve ----------------------------------------------------------------------------------

  lemma ProductPositive(a: real, b: real)
    requires a > 0.0 && b > 0.0
    ensures a * b > 0.0
  {
  }

  lemma ProductIsPositive(a: real, b: real, product: real)
    requires a > 0.0 && b > 0.0 && product == a * b
    ensures product > 0.0
  {
  }

  lemma SquareIsPositive(a: real, square: real)
    requires square == a * a
    ensures square >= 0.0
    ensures a != 0.0 ==> square > 0.0
  {
    if a > 0.0 {
      ProductIsPositive(a, a, square);
    } else if a < 0.0 {
      ProductIsPositive(-a, -a, square);
    }
  }

  lemma CubesIncrease(a: real, b: real)
    requires a < b
    ensures a * a * a < b * b * b
  {
    QuadraticPositive(a, b);
    ProductPositive(b - a, a * a + a * b + b * b);
    assert b * b * b - a * a * a == (b - a) * (a * a + a * b + b * b);
  }

  lemma QuadraticPositive(a: real, b: real)
    requires a != b
    ensures a * a + a * b + b * b > 0.0
  {
    var h := b + a / 2.0;
    var squareA, squareH := a * a, h * h;
    SquareIsPositive(a, squareA);
    SquareIsPositive(h, squareH);
    assert a == 0.0 ==> h != 0.0;
    assert squareH + 0.75 * squareA > 0.0;
    CompleteTheSquare(a, b, h, squareA, squareH);
  }

  lemma CompleteTheSquare(a: real, b: real, h: real, squareA: real, squareH: real)
    requires h == b + a / 2.0 && squareA == a * a && squareH == h * h
    ensures a * a + a * b + b * b == squareH + 0.75 * squareA
  {
    assert squareH == b * b + a * b + a * a / 4.0;
  }

  lemma FractionsShrink(a: real, b: real)
    requires 0.0 <= a <= 1.0 && 0.0 <= b <= 1.0
    ensures a * b <= b
  {
    if a < 1.0 && b > 0.0 { ProductPositive(1.0 - a, b); assert (1.0 - a) * b == b - a * b; }
  }

  // The weights of the two control values and of the end point.
  function W1(t: real): real {
    3.0 * (1.0 - t) * (1.0 - t) * t
  }

  function W2(t: real): real {
    3.0 * (1.0 - t) * t * t
  }

  function W3(t: real): real {
    t * t * t
  }

  // For each choice of the control values from 0 and 1 the coordinate grows.
  lemma EarlyCornerIncreases(t: real, u: real)
    requires t < u
    ensures W1(t) + W3(t) < W1(u) + W3(u)
  {
    CubesIncrease(2.0 * t - 1.0, 2.0 * u - 1.0);
    EarlyCorner(t);
    EarlyCorner(u);
  }

  lemma EarlyCorner(t: real)
    ensures var c := 2.0 * t - 1.0; 2.0 * (W1(t) + W3(t)) == 1.0 + c * c * c
  {
  }

  lemma LateCornerIncreases(t: real, u: real)
    requires 0.0 <= t < u <= 1.0
    ensures W2(t) + W3(t) < W2(u) + W3(u)
  {
    var q := LateFactor(t, u);
    LateCorner(t, u, q);
    ProductPositive(u - t, q);
  }

  lemma LateFactor(t: real, u: real) returns (q: real)
    requires 0.0 <= t < u <= 1.0
    ensures q == 3.0 * (u + t) - 2.0 * (u * u + u * t + t * t) && q > 0.0
  {
    var uu, ut, tt := u * u, u * t, t * t;
    assert uu <= u by { FractionsShrink(u, u); }
    assert ut <= t by { FractionsShrink(u, t); }
    assert tt <= t by { FractionsShrink(t, t); }
    q := 3.0 * (u + t) - 2.0 * (uu + ut + tt);
  }

  lemma LateCorner(t: real, u: real, q: real)
    requires q == 3.0 * (u + t) - 2.0 * (u * u + u * t + t * t)
    ensures W2(u) + W3(u) - (W2(t) + W3(t)) == (u - t) * q
  {
  }

  lemma FullCornerIncreases(t: real, u: real)
    requires t < u
    ensures W1(t) + W2(t) + W3(t) < W1(u) + W2(u) + W3(u)
  {
    CubesIncrease(1.0 - u, 1.0 - t);
    FullCorner(t);
    FullCorner(u);
  }

  lemma FullCorner(t: real)
    ensures var c := 1.0 - t; W1(t) + W2(t) + W3(t) == 1.0 - c * c * c
  {
  }

  // A sum that is positive at the corners of the unit square is positive inside it.
  lemma PositiveInTheSquare(p: real, q: real, d1: real, d2: real, d3: real)
    requires 0.0 <= p <= 1.0 && 0.0 <= q <= 1.0
    requires d3 > 0.0 && d1 + d3 > 0.0 && d2 + d3 > 0.0 && d1 + d2 + d3 > 0.0
    ensures d1 * p + d2 * q + d3 > 0.0
  {
    PositiveBetween(p, d1, d3);
    PositiveBetween(p, d1, d2 + d3);
    PositiveBetween(q, d2, d1 * p + d3);
  }

  lemma PositiveBetween(p: real, d: real, e: real)
    requires 0.0 <= p <= 1.0 && e > 0.0 && d + e > 0.0
    ensures d * p + e > 0.0
  {
    if d < 0.0 {
      if p < 1.0 { ProductPositive(-d, 1.0 - p); }
      assert (-d) * (1.0 - p) == d * p - d;
    } else if d > 0.0 && p > 0.0 {
      ProductPositive(d, p);
    }
  }

  // With both control values in [0, 1] the coordinate grows strictly along the curve.
  lemma CoordinateIncreases(p1: real, p2: real, t: real, u: real)
    requires 0.0 <= p1 <= 1.0 && 0.0 <= p2 <= 1.0 && 0.0 <= t < u <= 1.0
    ensures Coordinate(p1, p2, t) < Coordinate(p1, p2, u)
  {
    var weights := v => Weights(W1(v), W2(v), W3(v));
    CornersGrow(t, u);
    WeightsGrow(weights, p1, p2, t, u);
    CoordinateByWeights(p1, p2, t);
    CoordinateByWeights(p1, p2, u);
  }

  datatype Weights = Weights(first: real, second: real, end: real)

  function Blend(w: Weights, p1: real, p2: real): real {
    w.first * p1 + w.second * p2 + w.end
  }

  ghost predicate CornersBelow(b: Weights, c: Weights) {
    && b.end < c.end && b.first + b.end < c.first + c.end && b.second + b.end < c.second + c.end
    && b.first + b.second + b.end < c.first + c.second + c.end
  }

  lemma CoordinateByWeights(p1: real, p2: real, t: real)
    ensures Coordinate(p1, p2, t) == Blend(Weights(W1(t), W2(t), W3(t)), p1, p2)
  {
  }

  lemma WeightsGrow(weights: real -> Weights, p1: real, p2: real, t: real, u: real)
    requires 0.0 <= p1 <= 1.0 && 0.0 <= p2 <= 1.0 && CornersBelow(weights(t), weights(u))
    ensures Blend(weights(t), p1, p2) < Blend(weights(u), p1, p2)
  {
    var b, c := weights(t), weights(u);
    SumsGrow(p1, p2, b.first, b.second, b.end, c.first, c.second, c.end);
  }

  lemma CornersGrow(t: real, u: real)
    requires 0.0 <= t < u <= 1.0
    ensures CornersBelow(Weights(W1(t), W2(t), W3(t)), Weights(W1(u), W2(u), W3(u)))
  {
    CubesIncrease(t, u);
    EarlyCornerIncreases(t, u);
    LateCornerIncreases(t, u);
    FullCornerIncreases(t, u);
  }

  lemma SumsGrow(p: real, q: real, b1: real, b2: real, b3: real, c1: real, c2: real, c3: real)
    requires 0.0 <= p <= 1.0 && 0.0 <= q <= 1.0
    requires b3 < c3 && b1 + b3 < c1 + c3 && b2 + b3 < c2 + c3 && b1 + b2 + b3 < c1 + c2 + c3
    ensures b1 * p + b2 * q + b3 < c1 * p + c2 * q + c3
  {
    PositiveInTheSquare(p, q, c1 - b1, c2 - b2, c3 - b3);
    assert (c1 - b1) * p == c1 * p - b1 * p;
    assert (c2 - b2) * q == c2 * q - b2 * q;
  }

  lemma CoordinateInRange(p1: real, p2: real, t: real)
    requires 0.0 <= p1 <= 1.0 && 0.0 <= p2 <= 1.0 && 0.0 <= t <= 1.0
    ensures 0.0 <= Coordinate(p1, p2, t) <= 1.0
  {
    if 0.0 < t { CoordinateIncreases(p1, p2, 0.0, t); }
    if t < 1.0 { CoordinateIncreases(p1, p2, t, 1.0); }
  }

  // --- The bisection --------------------------------------------------------------------------------

  function Half(n: nat): real {
    if n == 0 then 1.0 else Half(n - 1) / 2.0
  }

  lemma {:induction false} NarrowHalves(f: real -> real, x: real, lo: real, hi: real, n: nat)
    requires lo < hi
    ensures var (lo', hi') := Narrow(f, x, lo, hi, n);
            lo <= lo' < hi' <= hi && hi' - lo' == (hi - lo) * Half(n)
    decreases n
  {
    if n > 0 {
      var guess := (lo + hi) / 2.0;
      var (l, h) := if x < f(guess) then (lo, guess) else (guess, hi);
      NarrowHalves(f, x, l, h, n - 1);
      assert h - l == (hi - lo) / 2.0;
      assert ((hi - lo) / 2.0) * Half(n - 1) == (hi - lo) * (Half(n - 1) / 2.0);
    }
  }

  // The searched point stays bracketed, whatever the function.
  lemma {:induction false} NarrowBrackets(f: real -> real, x: real, lo: real, hi: real, n: nat)
    requires f(lo) <= x < f(hi)
    ensures var (lo', hi') := Narrow(f, x, lo, hi, n); f(lo') <= x < f(hi')
    decreases n
  {
    if n > 0 {
      var guess := (lo + hi) / 2.0;
      if x < f(guess) {
        NarrowBrackets(f, x, lo, guess, n - 1);
      } else {
        NarrowBrackets(f, x, guess, hi, n - 1);
      }
    }
  }

  lemma HalfSteps()
    ensures Half(31) == 1.0 / 2147483648.0
  {
    assert Half(8) == 1.0 / 256.0;
    assert Half(16) == 1.0 / 65536.0;
    assert Half(24) == 1.0 / 16777216.0;
  }

  lemma ResultIsBracketed(b: CubicBezier, x: real)
    requires 0.0 < x < 1.0
    ensures var (lo, hi) := Bracket(b, x);
            && 0.0 <= lo < hi <= 1.0
            && XForT(b, lo) <= x < XForT(b, hi)
            && hi - lo == 1.0 / 2147483648.0
            && TForX(b, x) == (lo + hi) / 2.0
  {
    var f := t => XForT(b, t);
    assert f(0.0) == 0.0 && f(1.0) == 1.0;
    NarrowBrackets(f, x, 0.0, 1.0, STEPS);
    NarrowHalves(f, x, 0.0, 1.0, STEPS);
    HalfSteps();
  }

  // For an x coordinate that grows along the curve the result is within 2^-32 of the parameter at
  // which the curve takes the value `x`.
  lemma ResultIsNearThePreimage(b: CubicBezier, x: real, t: real)
    requires 0.0 <= b.x1 <= 1.0 && 0.0 <= b.x2 <= 1.0
    requires 0.0 < x < 1.0 && 0.0 <= t <= 1.0 && XForT(b, t) == x
    ensures -1.0 / 4294967296.0 <= TForX(b, x) - t <= 1.0 / 4294967296.0
  {
    ResultIsBracketed(b, x);
    var (lo, hi) := Bracket(b, x);
    if t < lo {
      CoordinateIncreases(b.x1, b.x2, t, lo);
    }
    if hi < t {
      CoordinateIncreases(b.x1, b.x2, hi, t);
    }
  }

  // Two searches take the same turns until one goes left and the other right; so a larger `x` never
  // gives a smaller result, even where the curve's x coordinate runs back.
  lemma {:induction false} BisectionKeepsOrder(f: real -> real, x: real, x': real, lo: real, hi: real, n: nat)
    requires x <= x' && lo < hi
    ensures Middle(Narrow(f, x, lo, hi, n)) <= Middle(Narrow(f, x', lo, hi, n))
    decreases n
  {
    if n > 0 {
      var guess := (lo + hi) / 2.0;
      if x' < f(guess) {
        BisectionKeepsOrder(f, x, x', lo, guess, n - 1);
      } else if f(guess) <= x {
        BisectionKeepsOrder(f, x, x', guess, hi, n - 1);
      } else {
        NarrowHalves(f, x, lo, guess, n - 1);
        NarrowHalves(f, x', guess, hi, n - 1);
      }
    }
  }

  lemma TForXInRange(b: CubicBezier, x: real)
    ensures 0.0 <= TForX(b, x) <= 1.0
  {
    NarrowHalves(t => XForT(b, t), x, 0.0, 1.0, STEPS);
  }

  lemma EaseInRange(b: CubicBezier, x: real)
    requires 0.0 <= b.y1 <= 1.0 && 0.0 <= b.y2 <= 1.0
    ensures 0.0 <= Ease(b, x) <= 1.0
  {
    TForXInRange(b, x);
    CoordinateInRange(b.y1, b.y2, TForX(b, x));
  }

  // With the control y values in [0, 1] an animation never steps back.
  lemma EaseNeverStepsBack(b: CubicBezier, x: real, x': real)
    requires 0.0 <= b.y1 <= 1.0 && 0.0 <= b.y2 <= 1.0 && x <= x'
    ensures Ease(b, x) <= Ease(b, x')
  {
    EaseInRange(b, x);
    EaseInRange(b, x');
    TForXInRange(b, x);
    TForXInRange(b, x');
    BisectionKeepsOrder(t => XForT(b, t), x, x', 0.0, 1.0, STEPS);
    if TForX(b, x) < TForX(b, x') {
      CoordinateIncreases(b.y1, b.y2, TForX(b, x), TForX(b, x'));
    }
  }

  // --- The curve as a construction ----------------------------------------------------------------

  function Between(a: real, b: real, t: real): real {
    a + (b - a) * t
  }

  // De Casteljau's construction: points between the control values, between these, and between those.
  function Constructed(p0: real, p1: real, p2: real, p3: real, t: real): real {
    var a, b, c := Between(p0, p1, t), Between(p1, p2, t), Between(p2, p3, t);
    Between(Between(a, b, t), Between(b, c, t), t)
  }

  lemma BetweenIs(a: real, b: real, t: real, at: real, bt: real)
    requires at == a * t && bt == b * t
    ensures Between(a, b, t) == a + bt - at
  {
  }

  lemma TimesSum(x: real, y: real, t: real, xt: real, yt: real)
    requires xt == x * t && yt == y * t
    ensures (x + y) * t == xt + yt && (x - y) * t == xt - yt && (2.0 * x) * t == 2.0 * xt
  {
  }

  lemma FirstRow(p: real, q: real, t: real, m1: real, n1: real)
    requires m1 == p * t && n1 == q * t
    ensures Between(0.0, p, t) == m1 && Between(p, q, t) == p + n1 - m1 && Between(q, 1.0, t) == q + t - n1
  {
    BetweenIs(0.0, p, t, 0.0, m1);
    BetweenIs(p, q, t, m1, n1);
    BetweenIs(q, 1.0, t, n1, t);
  }

  lemma SecondRow(p: real, q: real, t: real, u: real, m1: real, m2: real, n1: real, n2: real)
    requires u == t * t && m1 == p * t && n1 == q * t && m2 == m1 * t && n2 == n1 * t
    ensures Between(m1, p + n1 - m1, t) == 2.0 * m1 + n2 - 2.0 * m2
    ensures Between(p + n1 - m1, q + t - n1, t) == p + 2.0 * n1 - 2.0 * m1 + u - 2.0 * n2 + m2
  {
    TimesSum(p, n1, t, m1, n2);
    TimesSum(p + n1, m1, t, m1 + n2, m2);
    TimesSum(q, t, t, n1, u);
    TimesSum(q + t, n1, t, n1 + u, n2);
    BetweenIs(m1, p + n1 - m1, t, m2, m1 + n2 - m2);
    BetweenIs(p + n1 - m1, q + t - n1, t, m1 + n2 - m2, n1 + u - n2);
  }

  lemma ThirdRow(d: real, e: real, p: real, t: real, u: real, w: real,
                 m1: real, m2: real, m3: real, n1: real, n2: real, n3: real)
    requires m1 == p * t && m2 == m1 * t && m3 == m2 * t && n2 == n1 * t && n3 == n2 * t && w == u * t
    requires d == 2.0 * m1 + n2 - 2.0 * m2 && e == p + 2.0 * n1 - 2.0 * m1 + u - 2.0 * n2 + m2
    ensures Between(d, e, t) == 3.0 * m1 - 6.0 * m2 + 3.0 * m3 + 3.0 * n2 - 3.0 * n3 + w
  {
    assert d * t == 2.0 * m2 + n3 - 2.0 * m3 by {
      TimesSum(m1, m2, t, m2, m3);
      TimesSum(2.0 * m1, n2, t, 2.0 * m2, n3);
      TimesSum(2.0 * m1 + n2, 2.0 * m2, t, 2.0 * m2 + n3, 2.0 * m3);
    }
    assert e * t == m1 + 2.0 * n2 - 2.0 * m2 + w - 2.0 * n3 + m3 by {
      TimesE(e, p, t, u, w, m1, m2, m3, n1, n2, n3);
    }
    BetweenIs(d, e, t, d * t, e * t);
  }

  lemma TimesE(e: real, p: real, t: real, u: real, w: real,
               m1: real, m2: real, m3: real, n1: real, n2: real, n3: real)
    requires m1 == p * t && m2 == m1 * t && m3 == m2 * t && n2 == n1 * t && n3 == n2 * t && w == u * t
    requires e == p + 2.0 * n1 - 2.0 * m1 + u - 2.0 * n2 + m2
    ensures e * t == m1 + 2.0 * n2 - 2.0 * m2 + w - 2.0 * n3 + m3
  {
    var f := p + 2.0 * n1 - 2.0 * m1;
    TimesSum(n1, m1, t, n2, m2);
    TimesSum(m1, n2, t, m2, n3);
    TimesSum(n2, n1, t, n3, n2);
    TimesSum(p, 2.0 * n1, t, m1, 2.0 * n2);
    TimesSum(p + 2.0 * n1, 2.0 * m1, t, m1 + 2.0 * n2, 2.0 * m2);
    TimesSum(f, u, t, m1 + 2.0 * n2 - 2.0 * m2, w);
    TimesSum(f + u, 2.0 * n2, t, m1 + 2.0 * n2 - 2.0 * m2 + w, 2.0 * n3);
    TimesSum(f + u - 2.0 * n2, m2, t, m1 + 2.0 * n2 - 2.0 * m2 + w - 2.0 * n3, m3);
  }

  lemma Collected(p: real, q: real, t: real, u: real, w: real,
                  m1: real, m2: real, m3: real, n2: real, n3: real)
    requires u == t * t && w == u * t && m1 == p * t && m2 == m1 * t && m3 == m2 * t && n2 == q * t * t && n3 == n2 * t
    ensures Coordinate(p, q, t) == 3.0 * m1 - 6.0 * m2 + 3.0 * m3 + 3.0 * n2 - 3.0 * n3 + w
  {
    var omt := 1.0 - t;
    assert 3.0 * omt * omt * t * p == 3.0 * (m1 - 2.0 * m2 + m3);
    assert 3.0 * omt * t * t * q == 3.0 * (n2 - n3);
  }

  lemma RowsUp(p: real, q: real, t: real, a: real, b: real, c: real, d: real, e: real)
    requires a == Between(0.0, p, t) && b == Between(p, q, t) && c == Between(q, 1.0, t)
    requires d == Between(a, b, t) && e == Between(b, c, t)
    ensures Constructed(0.0, p, q, 1.0, t) == Between(d, e, t)
  {
  }

  // Both forms are this sum of powers.
  function Powers(t3: real, m1: real, m2: real, m3: real, n2: real, n3: real): real {
    3.0 * m1 - 6.0 * m2 + 3.0 * m3 + 3.0 * n2 - 3.0 * n3 + t3
  }

  lemma ConstructedIs(p: real, q: real, t: real, u: real, w: real,
                      m1: real, m2: real, m3: real, n1: real, n2: real, n3: real)
    requires u == t * t && w == u * t && m1 == p * t && n1 == q * t
    requires m2 == m1 * t && n2 == n1 * t && m3 == m2 * t && n3 == n2 * t
    ensures Constructed(0.0, p, q, 1.0, t) == Powers(w, m1, m2, m3, n2, n3)
  {
    var a, b, c := m1, p + n1 - m1, q + t - n1;
    var d, e := 2.0 * m1 + n2 - 2.0 * m2, p + 2.0 * n1 - 2.0 * m1 + u - 2.0 * n2 + m2;
    FirstRow(p, q, t, m1, n1);
    SecondRow(p, q, t, u, m1, m2, n1, n2);
    RowsUp(p, q, t, a, b, c, d, e);
    ThirdRow(d, e, p, t, u, w, m1, m2, m3, n1, n2, n3);
  }

  lemma CoordinateIs(p: real, q: real, t: real, u: real, w: real,
                     m1: real, m2: real, m3: real, n1: real, n2: real, n3: real)
    requires u == t * t && w == u * t && m1 == p * t && n1 == q * t
    requires m2 == m1 * t && n2 == n1 * t && m3 == m2 * t && n3 == n2 * t
    ensures Coordinate(p, q, t) == Powers(w, m1, m2, m3, n2, n3)
  {
    Collected(p, q, t, u, w, m1, m2, m3, n2, n3);
  }

  lemma Expanded(p: real, q: real, t: real)
    ensures Coordinate(p, q, t) == Constructed(0.0, p, q, 1.0, t)
  {
    var u, m1, n1 := t * t, p * t, q * t;
    var w, m2, n2 := u * t, m1 * t, n1 * t;
    var m3, n3 := m2 * t, n2 * t;
    var sum := Powers(w, m1, m2, m3, n2, n3);
    assert Coordinate(p, q, t) == sum by { CoordinateIs(p, q, t, u, w, m1, m2, m3, n1, n2, n3); }
    assert Constructed(0.0, p, q, 1.0, t) == sum by { ConstructedIs(p, q, t, u, w, m1, m2, m3, n1, n2, n3); }
  }

  // The curve goes from (0, 0) to (1, 1) with the first control point (x1, y1) and the second (x2, y2).
  lemma CurveExactly(b: CubicBezier, t: real)
    ensures XForT(b, t) == Constructed(0.0, b.x1, b.x2, 1.0, t)
    ensures YForT(b, t) == Constructed(0.0, b.y1, b.y2, 1.0, t)
  {
    Expanded(b.x1, b.x2, t);
    Expanded(b.y1, b.y2, t);
  }

  // Away from the ends, the easing is the height of a point of the curve whose parameter is within 2^-32
  // of that of the point above x.
  lemma EaseIsOnTheCurve(b: CubicBezier, x: real, t: real) returns (u: real)
    requires 0.0 <= b.x1 <= 1.0 && 0.0 <= b.x2 <= 1.0 && EPSILON < x < 1.0 - EPSILON
    requires 0.0 <= t <= 1.0 && Constructed(0.0, b.x1, b.x2, 1.0, t) == x
    ensures Ease(b, x) == Constructed(0.0, b.y1, b.y2, 1.0, u)
    ensures u - t <= 1.0 / 4294967296.0 && t - u <= 1.0 / 4294967296.0
  {
    u := TForX(b, x);
    CurveExactly(b, t);
    CurveExactly(b, u);
    ResultIsNearThePreimage(b, x, t);
  }
}
