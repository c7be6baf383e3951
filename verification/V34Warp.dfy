/** The warp of section 9.7 of V.34 and Newton's method for taking it away, over the real numbers. */
module V34Warp {
  import opened Prelude
  import opened V34Constellation
  import opened V34Trellis
  import opened V34Nearest
  import P = V34Precoder
  import W = V34Whitener

  /** The larger of the two values that V.34 allows. */
  const THETA := 0.3125
  const ROUNDS := 8

  function Power(x: Complex): real {
    x.re * x.re + x.im * x.im
  }

  function Times(x: Complex, k: real): Complex {
    Complex(Mul(x.re, k), Mul(x.im, k))
  }

  function Zeta(power: real, energy: real): real
    requires energy > 0.0
  {
    THETA * power / energy
  }

  function Series(zeta: real): real {
    1.0 + zeta / 6.0 + zeta * zeta / 120.0
  }

  function Phi(power: real, energy: real): real
    requires energy > 0.0
  {
    Series(Zeta(power, energy))
  }

  /** A point taken outward by Phi of its own power. */
  function Warp(x: Complex, energy: real): Complex
    requires energy > 0.0
  {
    Times(x, Phi(Power(x), energy))
  }

  /** The derivative of r Phi(r^2), by zeta. */
  function Slope(zeta: real): (s: real)
    requires zeta >= 0.0
    ensures s >= 1.0
  {
    SquareIsPositive(zeta);
    1.0 + zeta / 2.0 + zeta * zeta / 24.0
  }

  lemma SquareIsPositive(x: real)
    ensures x * x >= 0.0
  {
  }

  lemma ZetaIsPositive(r: real, energy: real)
    requires energy > 0.0
    ensures Zeta(r * r, energy) >= 0.0
  {
    SquareIsPositive(r);
    OverPositive(THETA * (r * r), energy);
  }

  lemma OverPositive(a: real, b: real)
    requires a >= 0.0 && b > 0.0
    ensures a / b >= 0.0
  {
  }

  /** What is left of r Phi(r^2) = magnitude. */
  function Residual(r: real, magnitude: real, energy: real): real
    requires energy > 0.0
  {
    r * Phi(r * r, energy) - magnitude
  }

  /** One round of Newton's method. */
  function Closer(r: real, magnitude: real, energy: real): real
    requires energy > 0.0
  {
    ZetaIsPositive(r, energy);
    r - Residual(r, magnitude, energy) / Slope(Zeta(r * r, energy))
  }

  /** Rounds of Newton's method, from the magnitude itself. */
  function Newton(magnitude: real, energy: real, rounds: nat): real
    requires energy > 0.0
  {
    if rounds == 0 then magnitude else Closer(Newton(magnitude, energy, rounds - 1), magnitude, energy)
  }

  /** An equalized point with its magnitude, the square root of its power. */
  datatype Heard = Heard(z: Complex, magnitude: real)

  predicate Measured(heard: Heard) {
    heard.magnitude >= 0.0 && Square(heard.magnitude) == Power(heard.z)
  }

  /** A point that warps to nearly the one heard (`UnwarpLeaves`). */
  function Unwarp(heard: Heard, energy: real): Complex
    requires energy > 0.0
  {
    if heard.magnitude == 0.0 then heard.z
    else Times(heard.z, Newton(heard.magnitude, energy, ROUNDS) / heard.magnitude)
  }

  // Warping moves points apart.

  lemma SeriesGrows(a: real, b: real)
    requires 0.0 <= a <= b
    ensures 1.0 <= Series(a) <= Series(b)
  {
    assert b * b - a * a == (b - a) * (b + a);
  }

  lemma ZetaGrows(p: real, q: real, energy: real)
    requires 0.0 <= p <= q && energy > 0.0
    ensures 0.0 <= Zeta(p, energy) <= Zeta(q, energy)
  {
    OverPositive(THETA * p, energy);
    OverPositive(THETA * (q - p), energy);
    assert THETA * q / energy == THETA * p / energy + THETA * (q - p) / energy;
  }

  lemma PhiGrows(p: real, q: real, energy: real)
    requires 0.0 <= p <= q && energy > 0.0
    ensures 1.0 <= Phi(p, energy) <= Phi(q, energy)
  {
    hide Series, Zeta;
    ZetaGrows(p, q, energy);
    SeriesGrows(Zeta(p, energy), Zeta(q, energy));
  }

  function Apart(x: Complex, y: Complex): real {
    Square(x.re - y.re) + Square(x.im - y.im)
  }

  /** Where the point farther out is taken out by the larger factor, the two are no nearer than before. */
  lemma FactorsSpread(a: real, b: real, c: real, p: real, q: real)
    requires 0.0 <= a <= b && 1.0 <= p <= q && 2.0 * c <= a + b
    ensures p * p * a + q * q * b - 2.0 * (p * q) * c >= a + b - 2.0 * c
  {
    var d := a + b - 2.0 * c;
    ProductIsPositive(p * q - 1.0, d) by {
      ProductIsPositive(p - 1.0, q);
    }
    ProductIsPositive(q - p, q * b - p * a) by {
      ProductIsPositive(q - p, b);
      ProductIsPositive(p, b - a);
    }
    calc {
      p * p * a + q * q * b - 2.0 * (p * q) * c - d;
      (p * q - 1.0) * d + p * p * a + q * q * b - (p * q) * (a + b);
      (p * q - 1.0) * d + (q - p) * (q * b - p * a);
    }
  }

  lemma ProductIsPositive(a: real, b: real)
    requires a >= 0.0 && b >= 0.0
    ensures a * b >= 0.0
  {
  }

  function Inner(x: Complex, y: Complex): real {
    x.re * y.re + x.im * y.im
  }

  lemma SquareOfDifference(a: real, b: real, p: real, q: real)
    ensures Square(a * p - b * q) == p * p * (a * a) + q * q * (b * b) - 2.0 * (p * q) * (a * b)
  {
  }

  lemma ApartIs(x: Complex, y: Complex, p: real, q: real)
    ensures Apart(Times(x, p), Times(y, q)) == p * p * Power(x) + q * q * Power(y) - 2.0 * (p * q) * Inner(x, y)
  {
    hide Square;
    SquareOfDifference(x.re, y.re, p, q);
    SquareOfDifference(x.im, y.im, p, q);
    var a, b := Times(x, p), Times(y, q);
    assert a.re == x.re * p && a.im == x.im * p && b.re == y.re * q && b.im == y.im * q;
    assert Apart(a, b) == Square(a.re - b.re) + Square(a.im - b.im);
    Gathers(p * p, q * q, 2.0 * (p * q), x.re * x.re, x.im * x.im, y.re * y.re, y.im * y.im, x.re * y.re, x.im * y.im);
  }

  lemma Gathers(p: real, q: real, r: real, a: real, a': real, b: real, b': real, c: real, c': real)
    ensures p * (a + a') + q * (b + b') - r * (c + c') == (p * a + q * b - r * c) + (p * a' + q * b' - r * c')
  {
    Distributes(p, a, a');
    Distributes(q, b, b');
    Distributes(r, c, c');
  }

  lemma Distributes(k: real, a: real, b: real)
    ensures k * (a + b) == k * a + k * b
  {
  }

  lemma ApartAsPowers(x: Complex, y: Complex)
    ensures Apart(x, y) == Power(x) + Power(y) - 2.0 * Inner(x, y)
    ensures Apart(x, y) >= 0.0 && Power(x) >= 0.0
  {
    SquareIsPositive(x.re - y.re);
    SquareIsPositive(x.im - y.im);
    SquareIsPositive(x.re);
    SquareIsPositive(x.im);
  }

  lemma SpreadsOutward(x: Complex, y: Complex, energy: real)
    requires energy > 0.0 && Power(x) <= Power(y)
    ensures Apart(Warp(x, energy), Warp(y, energy)) >= Apart(x, y)
  {
    hide Apart, Power, Inner, Phi, Times;
    ApartAsPowers(x, y);
    var p, q := Phi(Power(x), energy), Phi(Power(y), energy);
    PhiGrows(Power(x), Power(y), energy);
    ApartIs(x, y, p, q);
    FactorsSpread(Power(x), Power(y), Inner(x, y), p, q);
  }

  lemma ApartBothWays(x: Complex, y: Complex)
    ensures Apart(x, y) == Apart(y, x)
  {
  }

  /** Warping brings no two points nearer. */
  lemma WarpSpreads(x: Complex, y: Complex, energy: real)
    requires energy > 0.0
    ensures Apart(Warp(x, energy), Warp(y, energy)) >= Apart(x, y)
  {
    hide Apart, Power, Warp;
    if Power(x) <= Power(y) {
      SpreadsOutward(x, y, energy);
    } else {
      SpreadsOutward(y, x, energy);
      ApartBothWays(x, y);
      ApartBothWays(Warp(x, energy), Warp(y, energy));
    }
  }

  // Newton's method closes in.

  /** How much r Phi(r^2) is over r, as a share of r. */
  function Excess(t: real): real {
    t / 6.0 + t * t / 120.0
  }

  /** What a step of `u` of itself leaves of the third power beyond its tangent, and of the fifth. */
  function Cube(w: real): real {
    w * (w * w)
  }

  function Quint(w: real): real {
    w * (w * w) * (w * w)
  }

  function Third(u: real): real {
    u * u * (3.0 - u)
  }

  function Fifth(u: real): real {
    u * u * (10.0 - 10.0 * u + 5.0 * (u * u) - u * (u * u))
  }

  lemma ThirdIs(u: real)
    requires 0.0 <= u <= 1.0
    ensures Cube(1.0 - u) == 1.0 - 3.0 * u + Third(u)
    ensures 0.0 <= Third(u) <= 3.0 * Square(u)
  {
    SquareIsPositive(u);
    ProductIsPositive(u * u, 3.0 - u);
    ProductIsPositive(u * u, u);
    assert u * u * (3.0 - u) == 3.0 * (u * u) - u * u * u;
  }

  lemma FifthIs(u: real)
    requires 0.0 <= u <= 1.0
    ensures Quint(1.0 - u) == 1.0 - 5.0 * u + Fifth(u)
    ensures 0.0 <= Fifth(u) <= 10.0 * Square(u)
  {
    var v, w := u * u, 1.0 - u;
    SquareIsPositive(u);
    var rest := 10.0 - 10.0 * u + 5.0 * v - u * v;
    assert rest == 10.0 * w + v * (5.0 - u);
    ProductIsPositive(v, 5.0 - u);
    ProductIsPositive(v, rest);
    assert 10.0 - rest == u * (10.0 - 5.0 * u + v);
    ProductIsPositive(u, 10.0 - 5.0 * u + v);
    ProductIsPositive(v, 10.0 - rest);
    assert v * (10.0 - rest) == 10.0 * v - v * rest;
    FifthExpands(u);
  }

  lemma FifthExpands(u: real)
    ensures (1.0 - u) * ((1.0 - u) * (1.0 - u)) * ((1.0 - u) * (1.0 - u))
      == 1.0 - 5.0 * u + u * u * (10.0 - 10.0 * u + 5.0 * (u * u) - u * (u * u))
  {
    var w2 := (1.0 - u) * (1.0 - u);
    assert w2 == 1.0 - 2.0 * u + u * u;
    assert w2 * w2 == 1.0 - 4.0 * u + 6.0 * (u * u) - 4.0 * (u * (u * u)) + (u * u) * (u * u);
    assert (1.0 - u) * w2 * w2 == w2 * w2 - u * (w2 * w2);
  }

  /** The coefficients of the third and the fifth power of a step's share of r. */
  function ThirdOf(t: real): real {
    t / 6.0
  }

  function FifthOf(t: real): real {
    t * t / 120.0
  }

  /** What a step of `u` leaves beyond the tangent. */
  function Rest(t: real, u: real): real {
    Mul(ThirdOf(t), Third(u)) + Mul(FifthOf(t), Fifth(u))
  }

  /** The second derivative, by which the rest is bounded. */
  function Curve(t: real): real {
    t / 2.0 + t * t / 12.0
  }

  lemma Coefficients(t: real)
    requires t >= 0.0
    ensures var a, b := ThirdOf(t), FifthOf(t);
      && a >= 0.0 && b >= 0.0
      && Series(t) == 1.0 + a + b && Excess(t) == a + b
      && Slope(t) == 1.0 + 3.0 * a + 5.0 * b && Curve(t) == 3.0 * a + 10.0 * b
  {
    SquareIsPositive(t);
  }

  lemma RestIs(t: real, u: real)
    requires t >= 0.0 && 0.0 <= u <= 1.0
    ensures Mul(1.0 - u, Series(Mul(t, Square(1.0 - u)))) == Series(t) - Mul(u, Slope(t)) + Rest(t, u)
    ensures 0.0 <= Rest(t, u) <= Mul(Square(u), Curve(t))
  {
    hide Third, Fifth, ThirdOf, FifthOf, Series, Slope, Curve, Excess, Cube, Quint, Mul, Square;
    ThirdIs(u);
    FifthIs(u);
    SeriesOfProduct(t, 1.0 - u);
    Coefficients(t);
    Tangent(ThirdOf(t), FifthOf(t), u, Cube(1.0 - u), Quint(1.0 - u), Third(u), Fifth(u), Slope(t));
    TermsBelow(ThirdOf(t), FifthOf(t), Third(u), Fifth(u), Square(u));
  }

  lemma Tangent(a: real, b: real, u: real, w3: real, w5: real, third: real, fifth: real, slope: real)
    requires w3 == 1.0 - 3.0 * u + third && w5 == 1.0 - 5.0 * u + fifth && slope == 1.0 + 3.0 * a + 5.0 * b
    ensures 1.0 - u + Mul(a, w3) + Mul(b, w5) == 1.0 + a + b - Mul(u, slope) + (Mul(a, third) + Mul(b, fifth))
  {
    assert a * w3 == a - 3.0 * (a * u) + a * third;
    assert b * w5 == b - 5.0 * (b * u) + b * fifth;
    assert u * slope == u + 3.0 * (a * u) + 5.0 * (b * u);
  }

  lemma TermsBelow(a: real, b: real, third: real, fifth: real, v: real)
    requires a >= 0.0 && b >= 0.0 && 0.0 <= third <= 3.0 * v && 0.0 <= fifth <= 10.0 * v
    ensures 0.0 <= Mul(a, third) + Mul(b, fifth) <= Mul(v, 3.0 * a + 10.0 * b)
  {
    ProductIsPositive(a, third);
    ProductIsPositive(a, 3.0 * v - third);
    ProductIsPositive(b, fifth);
    ProductIsPositive(b, 10.0 * v - fifth);
  }

  lemma SeriesOfProduct(t: real, w: real)
    ensures Mul(w, Series(Mul(t, Square(w)))) == w + Mul(ThirdOf(t), Cube(w)) + Mul(FifthOf(t), Quint(w))
  {
    var v := w * w;
    assert t * v * (t * v) == t * t * (v * v);
    assert w * (t * v / 6.0) == t / 6.0 * (w * v);
    assert w * (t * t * (v * v) / 120.0) == t * t / 120.0 * (w * v * v);
    Distributes(w, 1.0 + t * v / 6.0, t * v * (t * v) / 120.0);
    Distributes(w, 1.0, t * v / 6.0);
  }

  /** A step leaves under a third of the residual, as long as zeta is at most 8. */
  lemma StepsShrink(t: real)
    requires 0.0 <= t <= 8.0
    ensures Mul(Excess(t), Curve(t)) <= 0.3 * Square(Slope(t))
    ensures Excess(t) < Slope(t) && Curve(t) >= 0.0
  {
    var t2 := t * t;
    var t3, t4 := t * t2, t2 * t2;
    ProductIsPositive(t, 8.0 - t);
    ProductIsPositive(t2, 8.0 - t);
    ProductIsPositive(t2, 64.0 - t2);
    assert (t / 6.0 + t2 / 120.0) * (t / 2.0 + t2 / 12.0) == t2 / 12.0 + 13.0 * t3 / 720.0 + t4 / 1440.0;
    assert (1.0 + t / 2.0 + t2 / 24.0) * (1.0 + t / 2.0 + t2 / 24.0)
      == 1.0 + t + t2 / 3.0 + t3 / 24.0 + t4 / 576.0;
  }

  lemma RestIsSmall(t: real, u: real, f: real)
    requires 0.0 <= t <= 8.0 && 0.0 <= f <= Excess(t) && Mul(u, Slope(t)) == f
    ensures 0.0 <= u < 1.0 && Mul(Square(u), Curve(t)) <= 0.3 * f
  {
    hide Excess, Slope, Curve;
    StepsShrink(t);
    var s, c := Slope(t), Curve(t);
    Quotient(u, s, f);
    ProductIsPositive(Excess(t) - f, c);
    assert f * c <= 0.3 * (s * s);
    Cancels(u * c, 0.3 * s, s);
    ProductIsPositive(u, 0.3 * s - u * c);
  }

  lemma Quotient(u: real, s: real, f: real)
    requires s >= 1.0 && u * s == f && 0.0 <= f < s
    ensures 0.0 <= u < 1.0
  {
    if u < 0.0 {
      ProductIsPositive(-u, s - 1.0);
    }
    if u >= 1.0 {
      ProductIsPositive(u - 1.0, s - 1.0);
    }
  }

  lemma Cancels(a: real, b: real, s: real)
    requires s >= 1.0 && a * s <= b * s
    ensures a <= b
  {
    if a > b {
      ProductIsPositive(a - b, s - 1.0);
    }
  }

  lemma ShareIs(res: real, r: real, most: real)
    requires r > 0.0 && 0.0 <= res <= Mul(r, most)
    ensures 0.0 <= res / r <= most && Mul(r, res / r) == res
  {
    var f := res / r;
    assert f * r == res;
    if f < 0.0 {
      ProductIsOver(-f, r);
    }
    if f > most {
      ProductIsOver(f - most, r);
    }
  }

  lemma ProductIsOver(a: real, b: real)
    requires a > 0.0 && b > 0.0
    ensures a * b > 0.0
  {
  }

  lemma StepIs(res: real, r: real, f: real, s: real)
    requires s >= 1.0 && Mul(r, f) == res
    ensures Mul(f / s, s) == f && r - res / s == Mul(r, 1.0 - f / s)
  {
    var u := f / s;
    assert u * s == f;
    assert res == r * u * s;
    assert res / s == r * u;
  }

  lemma ZetaScales(r: real, w: real, energy: real)
    requires energy > 0.0
    ensures Zeta(Square(Mul(r, w)), energy) == Mul(Zeta(Square(r), energy), Square(w))
  {
    var p, v := r * r, w * w;
    assert r * w * (r * w) == p * v;
    assert THETA * (p * v) / energy == THETA * p / energy * v;
  }

  lemma ResidualIs(r: real, m: real, energy: real)
    requires energy > 0.0
    ensures r * r == Square(r)
    ensures Residual(r, m, energy) == Mul(r, Series(Zeta(Square(r), energy))) - m
  {
    hide Series, Zeta;
  }

  lemma ResidualOfExcess(r: real, m: real, t: real)
    requires r <= m
    ensures Mul(r, Series(t)) - m <= Mul(r, Excess(t))
  {
  }

  /** What is left after the step, from what the series is after it. */
  lemma ResidualAfter(r: real, w: real, m: real, f: real, series: real, after: real, rest: real)
    requires Mul(w, after) == series - f + rest
    ensures Mul(Mul(r, w), after) - m == Mul(r, series) - m - Mul(r, f) + Mul(r, rest)
  {
    assert r * w * after == r * (w * after);
    assert r * (series - f + rest) == r * series - r * f + r * rest;
  }

  lemma RestScales(r: real, rest: real, f: real)
    requires r > 0.0 && 0.0 <= rest <= 0.3 * f
    ensures 0.0 <= Mul(r, rest) <= 0.3 * Mul(r, f)
  {
    ProductIsPositive(r, rest);
    ProductIsPositive(r, 0.3 * f - rest);
  }

  lemma ScaledDown(r: real, w: real)
    requires r > 0.0 && 0.0 < w <= 1.0
    ensures 0.0 < Mul(r, w) <= r
  {
    ProductIsPositive(r, 1.0 - w);
    assert r * w > 0.0;
  }

  /** One round stays above the root and leaves under a third of what was left. */
  lemma RoundCloses(r: real, m: real, energy: real)
    requires energy > 0.0 && 0.0 < r <= m && Residual(r, m, energy) >= 0.0
    requires 0.0 <= Zeta(r * r, energy) <= 8.0
    ensures var r' := Closer(r, m, energy);
      0.0 < r' <= r && 0.0 <= Residual(r', m, energy) <= 0.3 * Residual(r, m, energy)
  {
    hide Zeta, Residual, Series, Slope, Excess, Curve, Rest, Mul, Square;
    var t, res := Zeta(Square(r), energy), Residual(r, m, energy);
    ResidualIs(r, m, energy);
    var s := Slope(t);
    ResidualOfExcess(r, m, t);
    ShareIs(res, r, Excess(t));
    var f := res / r;
    StepIs(res, r, f, s);
    var u := f / s;
    var w := 1.0 - u;
    RestIsSmall(t, u, f);
    RestIs(t, u);
    ZetaScales(r, w, energy);
    ResidualIs(Mul(r, w), m, energy);
    ResidualAfter(r, w, m, f, Series(t), Series(Mul(t, Square(w))), Rest(t, u));
    RestScales(r, Rest(t, u), f);
    ScaledDown(r, w);
  }

  /** How much of the residual is left after some rounds. */
  function Share(rounds: nat): (share: real)
    ensures share > 0.0
  {
    if rounds == 0 then 1.0 else 0.3 * Share(rounds - 1)
  }

  lemma ShareShrinks(rounds: nat, x: real)
    ensures Mul(Share(rounds), x) == if rounds == 0 then x else 0.3 * Mul(Share(rounds - 1), x)
  {
    if rounds > 0 {
      assert 0.3 * Share(rounds - 1) * x == 0.3 * (Share(rounds - 1) * x);
    }
  }

  lemma SquareGrowsTo(r: real, m: real)
    requires 0.0 <= r <= m
    ensures 0.0 <= r * r <= m * m
  {
    ProductIsPositive(r, m - r);
    ProductIsPositive(m, m - r);
    ProductIsPositive(r, r);
  }

  lemma SeriesIsOver(m: real, energy: real)
    requires energy > 0.0 && m > 0.0
    ensures 0.0 <= Residual(m, m, energy) == Mul(m, Excess(Zeta(m * m, energy)))
  {
    ZetaIsPositive(m, energy);
    var t := Zeta(m * m, energy);
    SquareIsPositive(t);
    hide Zeta;
    ProductIsPositive(m, Excess(t));
    assert m * (1.0 + Excess(t)) == m + m * Excess(t);
  }

  lemma {:induction false} NewtonCloses(m: real, energy: real, rounds: nat)
    requires energy > 0.0 && m > 0.0 && Zeta(m * m, energy) <= 8.0
    ensures 0.0 < Newton(m, energy, rounds) <= m
    ensures 0.0 <= Residual(Newton(m, energy, rounds), m, energy) <= Mul(Share(rounds), Residual(m, m, energy))
  {
    hide Zeta, Residual, Closer, Excess, Mul, Share;
    ShareShrinks(rounds, Residual(m, m, energy));
    SeriesIsOver(m, energy);
    if rounds > 0 {
      NewtonCloses(m, energy, rounds - 1);
      var r := Newton(m, energy, rounds - 1);
      SquareGrowsTo(r, m);
      ZetaGrows(r * r, m * m, energy);
      RoundCloses(r, m, energy);
    }
  }

  // What comes back of a point that was heard.

  lemma ShareOfEight()
    ensures Share(ROUNDS) <= 0.0000657
  {
    assert Share(2) == 0.09;
    assert Share(4) == 0.0081;
    assert Share(6) == 0.000729;
  }

  lemma LeftOver(m: real, energy: real)
    requires energy > 0.0 && 0.0 < m <= 120.0 && Zeta(Square(m), energy) <= 8.0
    ensures 0.0 <= Residual(Newton(m, energy, ROUNDS), m, energy) <= 0.015
  {
    hide Zeta, Residual, Newton, Share, Excess, Mul;
    NewtonCloses(m, energy, ROUNDS);
    ShareOfEight();
    SeriesIsOver(m, energy);
    ZetaIsPositive(m, energy);
    ExcessBelow(Zeta(m * m, energy));
    MulBelow(m, 120.0, Excess(Zeta(m * m, energy)), 1.87);
    MulBelow(Share(ROUNDS), 0.0000657, Residual(m, m, energy), 224.4);
  }

  lemma ExcessBelow(t: real)
    requires 0.0 <= t <= 8.0
    ensures 0.0 <= Excess(t) <= 1.87
  {
    ProductIsPositive(t, 8.0 - t);
    SquareIsPositive(t);
  }

  lemma MulBelow(a: real, c: real, b: real, d: real)
    requires 0.0 <= a <= c && 0.0 <= b <= d
    ensures 0.0 <= Mul(a, b) <= c * d
  {
    ProductIsPositive(a, b);
    ProductIsPositive(a, d - b);
    ProductIsPositive(c - a, d);
  }

  lemma RootIsOver(a: real, m: real)
    requires m >= 0.0 && a * a <= m * m
    ensures Abs(a) <= m
  {
    if a > m {
      ProductIsOver(a - m, a + m);
    }
    if -a > m {
      ProductIsOver(-a - m, -a + m);
    }
  }

  /** A coordinate scaled to another magnitude and warped again is off by no more than the residual. */
  lemma CoordinateLeaves(z: real, m: real, r: real, phi: real, f: real)
    requires m > 0.0 && Abs(z) <= m && r * phi - m == f && f >= 0.0
    ensures Abs(Mul(Mul(z, r / m), phi) - z) <= f
  {
    var k := z / m;
    assert z == k * m;
    assert z * (r / m) == k * r;
    assert k * r * phi - k * m == k * (r * phi - m) == k * f;
    ShareBelowOne(z, m);
    ProductIsPositive(1.0 - k, f);
    ProductIsPositive(1.0 + k, f);
  }

  lemma ShareBelowOne(z: real, m: real)
    requires m > 0.0 && Abs(z) <= m
    ensures Abs(z / m) <= 1.0
  {
    var k := z / m;
    assert k * m == z;
    assert (1.0 - k) * m == m - z && (1.0 + k) * m == m + z;
    FactorIsPositive(1.0 - k, m);
    FactorIsPositive(1.0 + k, m);
  }

  lemma FactorIsPositive(a: real, m: real)
    requires m > 0.0 && a * m >= 0.0
    ensures a >= 0.0
  {
    if a < 0.0 {
      ProductIsOver(-a, m);
    }
  }

  lemma ScaledPower(z: Complex, m: real, r: real)
    requires m > 0.0 && Square(m) == Power(z)
    ensures Power(Times(z, r / m)) == Square(r)
  {
    var k := r / m;
    assert k * m == r;
    assert z.re * k * (z.re * k) == z.re * z.re * (k * k);
    assert z.im * k * (z.im * k) == z.im * z.im * (k * k);
    Distributes(k * k, z.re * z.re, z.im * z.im);
    assert k * k * (m * m) == k * m * (k * m);
  }

  /** What Newton's method found warps to the point heard, but for the residual. */
  lemma UnwarpLeaves(heard: Heard, energy: real)
    requires energy > 0.0 && Measured(heard)
    requires heard.magnitude <= 120.0 && Zeta(Power(heard.z), energy) <= 8.0
    ensures W.Near(Warp(Unwarp(heard, energy), energy), heard.z, 0.015)
  {
    hide Zeta, Power, Newton, Residual, Phi, Times, Square, W.Near;
    var z, m := heard.z, heard.magnitude;
    if m == 0.0 {
      assert Square(0.0) == 0.0 by { NothingSquared(); }
      NothingHeard(z, Phi(Power(z), energy));
    } else {
      LeftOver(m, energy);
      CoordinatesWithin(z, m);
      ScaledPower(z, m, Newton(m, energy, ROUNDS));
      ScaledLeaves(z, m, Newton(m, energy, ROUNDS), energy);
    }
  }

  lemma ScaledLeaves(z: Complex, m: real, r: real, energy: real)
    requires energy > 0.0 && m > 0.0 && Abs(z.re) <= m && Abs(z.im) <= m
    requires 0.0 <= Residual(r, m, energy) <= 0.015
    ensures W.Near(Times(Times(z, r / m), Phi(Square(r), energy)), z, 0.015)
  {
    hide Mul, Abs, Phi;
    CoordinateLeaves(z.re, m, r, Phi(r * r, energy), Residual(r, m, energy));
    CoordinateLeaves(z.im, m, r, Phi(r * r, energy), Residual(r, m, energy));
  }

  lemma NothingHeard(z: Complex, k: real)
    requires Power(z) == 0.0
    ensures W.Near(Times(z, k), z, 0.015)
  {
    hide Power, Mul;
    NothingIs(z);
    NothingScales(k);
  }

  lemma NothingSquared()
    ensures Square(0.0) == 0.0
  {
  }

  lemma NothingScales(k: real)
    ensures Mul(0.0, k) == 0.0
  {
  }

  lemma NothingIs(z: Complex)
    requires Power(z) == 0.0
    ensures z == Complex(0.0, 0.0)
  {
    SquareIsPositive(z.re);
    SquareIsPositive(z.im);
    RootIsOver(z.re, 0.0);
    RootIsOver(z.im, 0.0);
  }

  lemma CoordinatesWithin(z: Complex, m: real)
    requires m >= 0.0 && Square(m) == Power(z)
    ensures Abs(z.re) <= m && Abs(z.im) <= m
  {
    SquareIsPositive(z.re);
    SquareIsPositive(z.im);
    RootIsOver(z.re, m);
    RootIsOver(z.im, m);
  }

  /** How far off a warped point may be heard in each component. */
  const NOISE := 1.0 / 30.0
  /** How far over the mean the power of a point sent may be. */
  const PEAK := 9.6

  /** A point of the precoder with no more than its share of the mean energy, which no mean on the odd grid is under. */
  predicate Modest(x: Complex, energy: real) {
    energy >= 2.0 && Abs(x.re) <= 51.0 && Abs(x.im) <= 51.0 && Power(x) <= PEAK * energy
  }

  lemma OverIsAtMost(a: real, b: real, most: real)
    requires b > 0.0 && a <= Mul(most, b)
    ensures a / b <= most
  {
    var k := a / b;
    assert k * b == a;
    if k > most {
      ProductIsOver(k - most, b);
    }
  }

  lemma PeakZeta(x: Complex, energy: real)
    requires Modest(x, energy)
    ensures 0.0 <= Zeta(Power(x), energy) <= 3.0
  {
    ApartAsPowers(x, x);
    hide Power;
    OverPositive(THETA * Power(x), energy);
    OverIsAtMost(THETA * Power(x), energy, 3.0);
  }

  lemma SeriesToThree(t: real)
    requires 0.0 <= t <= 3.0
    ensures 1.0 <= Series(t) <= 1.575 && Square(Series(t)) <= 2.481
  {
    SeriesGrows(0.0, t);
    SeriesGrows(t, 3.0);
    SquareGrows(Series(t), 1.575);
  }

  lemma ScaledBy(x: Complex, k: real)
    ensures Power(Times(x, k)) == Mul(Square(k), Power(x))
  {
    assert x.re * k * (x.re * k) == k * k * (x.re * x.re);
    assert x.im * k * (x.im * k) == k * k * (x.im * x.im);
    Distributes(k * k, x.re * x.re, x.im * x.im);
  }

  lemma ZetaOfMul(k: real, p: real, energy: real)
    requires energy > 0.0
    ensures Zeta(Mul(k, p), energy) == Mul(k, Zeta(p, energy))
  {
    assert THETA * (k * p) / energy == k * (THETA * p / energy);
  }

  lemma PowerWithin(x: Complex)
    requires Abs(x.re) <= 51.0 && Abs(x.im) <= 51.0
    ensures 0.0 <= Power(x) <= 5202.0
  {
    SquareIsPositive(x.re);
    SquareIsPositive(x.im);
    ProductIsPositive(51.0 - x.re, 51.0 + x.re);
    ProductIsPositive(51.0 - x.im, 51.0 + x.im);
  }

  /** The power of a warped point, and its zeta. */
  lemma WarpedBelow(x: Complex, energy: real)
    requires Modest(x, energy)
    ensures 0.0 <= Power(Warp(x, energy)) <= 12907.0 && Zeta(Power(Warp(x, energy)), energy) <= 7.443
  {
    PeakZeta(x, energy);
    PowerWithin(x);
    hide Zeta, Power, Series, Square, Times, Mul;
    var zeta := Zeta(Power(x), energy);
    SeriesToThree(zeta);
    SquareIsNotNegative(Series(zeta));
    ScaledBy(x, Series(zeta));
    ZetaOfMul(Square(Series(zeta)), Power(x), energy);
    MulBelow(Square(Series(zeta)), 2.481, Power(x), 5202.0);
    MulBelow(Square(Series(zeta)), 2.481, zeta, 3.0);
  }

  lemma SquareIsNotNegative(x: real)
    ensures Square(x) >= 0.0
  {
  }

  lemma HeardSquare(z: real, w: real)
    requires Abs(z - w) <= NOISE
    ensures z * z <= 1.05 * (w * w) + 0.025
  {
    var d := z - w;
    SquareIsPositive(w - 20.0 * d);
    ProductIsPositive(NOISE - d, NOISE + d);
    assert z == w + d;
    assert (w - 20.0 * d) * (w - 20.0 * d) == w * w - 40.0 * (w * d) + 400.0 * (d * d);
    assert (w + d) * (w + d) == w * w + 2.0 * (w * d) + d * d;
  }

  lemma HeardPower(z: Complex, w: Complex)
    requires W.Near(z, w, NOISE)
    ensures 0.0 <= Power(z) <= 1.05 * Power(w) + 0.05
  {
    HeardSquare(z.re, w.re);
    HeardSquare(z.im, w.im);
    SquareIsPositive(z.re);
    SquareIsPositive(z.im);
  }

  lemma HeardZeta(p: real, q: real, energy: real)
    requires energy >= 2.0 && 0.0 <= p <= 1.05 * q + 0.05 && Zeta(q, energy) <= 7.443
    ensures Zeta(p, energy) <= 8.0
  {
    ZetaGrows(p, 1.05 * q + 0.05, energy);
    OverIsAtMost(THETA * 0.05, energy, 0.01);
    assert THETA * (1.05 * q + 0.05) / energy == 1.05 * (THETA * q / energy) + THETA * 0.05 / energy;
  }

  lemma HeardBelow(x: Complex, energy: real, heard: Heard)
    requires Modest(x, energy) && Measured(heard) && W.Near(heard.z, Warp(x, energy), NOISE)
    ensures heard.magnitude <= 120.0 && Zeta(Power(heard.z), energy) <= 8.0
  {
    hide Power, Zeta, Warp, W.Near;
    WarpedBelow(x, energy);
    HeardPower(heard.z, Warp(x, energy));
    HeardZeta(Power(heard.z), Power(Warp(x, energy)), energy);
    RootIsOver(heard.magnitude, 120.0);
  }

  lemma ApartWithin(a: Complex, b: Complex)
    requires W.Near(a, b, 0.0484)
    ensures Apart(a, b) <= 0.0047
  {
    SquareOfAbs(a.re - b.re);
    SquareOfAbs(a.im - b.im);
    SquareGrows(Abs(a.re - b.re), 0.0484);
    SquareGrows(Abs(a.im - b.im), 0.0484);
  }

  lemma NearFromApart(a: Complex, b: Complex)
    requires Apart(a, b) <= 0.0047
    ensures W.Near(a, b, W.NOISE)
  {
    SquareIsNotNegative(a.re - b.re);
    SquareIsNotNegative(a.im - b.im);
    RootIsOver(a.re - b.re, W.NOISE);
    RootIsOver(a.im - b.im, W.NOISE);
  }

  /** A point heard within a thirtieth of what it was warped to comes back within a fourteenth of what it was. */
  lemma UnwarpIsNear(x: Complex, energy: real, heard: Heard)
    requires Modest(x, energy) && Measured(heard) && W.Near(heard.z, Warp(x, energy), NOISE)
    ensures W.Near(Unwarp(heard, energy), x, W.NOISE)
  {
    hide Measured, Power, Zeta, Warp, Unwarp, Apart, Modest;
    EnergyIsOver(x, energy);
    HeardBelow(x, energy, heard);
    UnwarpLeaves(heard, energy);
    var back := Unwarp(heard, energy);
    ApartWithin(Warp(back, energy), Warp(x, energy));
    WarpSpreads(back, x, energy);
    NearFromApart(back, x);
  }

  lemma EnergyIsOver(x: Complex, energy: real)
    requires Modest(x, energy)
    ensures energy > 0.0
  {
  }

  // With the warp or without it.

  /** A mean energy, where the far receiver asked for the non-linear encoder. */
  type Nonlinear = e: Option<real> | e.Some? ==> e.value > 0.0 witness None

  function Warped(nonlinear: Nonlinear, x: Complex): Complex {
    if nonlinear.Some? then Warp(x, nonlinear.value) else x
  }

  function Unwarped(nonlinear: Nonlinear, heard: Heard): Complex {
    if nonlinear.Some? then Unwarp(heard, nonlinear.value) else heard.z
  }

  /** A point heard well enough: within a fourteenth of x(n), or a thirtieth of what it was warped to. */
  predicate HeardNear(nonlinear: Nonlinear, heard: Heard, x: Complex) {
    match nonlinear
    case None => W.Near(heard.z, x, W.NOISE)
    case Some(energy) =>
      energy >= 2.0 && Power(x) <= PEAK * energy && Measured(heard) && W.Near(heard.z, Warp(x, energy), NOISE)
  }

  lemma UnwarpedIsNear(nonlinear: Nonlinear, heard: Heard, x: Complex)
    requires HeardNear(nonlinear, heard, x) && Abs(x.re) <= 51.0 && Abs(x.im) <= 51.0
    ensures W.Near(Unwarped(nonlinear, heard), x, W.NOISE)
  {
    hide W.Near, Warp, Unwarp, Measured, Power;
    if nonlinear.Some? {
      UnwarpIsNear(x, nonlinear.value, heard);
    }
  }

  /** The points that leave the encoder. */
  function WarpAll(nonlinear: Nonlinear, sent: seq<P.Fixed>): (points: seq<Complex>)
    ensures |points| == |sent|
    ensures forall i :: 0 <= i < |sent| ==> points[i] == Warped(nonlinear, W.ToComplex(sent[i]))
  {
    seq(|sent|, i requires 0 <= i < |sent| => Warped(nonlinear, W.ToComplex(sent[i])))
  }

  lemma WarpsOn(nonlinear: Nonlinear, sent: seq<P.Fixed>, first: P.Fixed, second: P.Fixed)
    ensures WarpAll(nonlinear, sent + [first, second])
      == WarpAll(nonlinear, sent) + [Warped(nonlinear, W.ToComplex(first)), Warped(nonlinear, W.ToComplex(second))]
  {
    hide Warped, W.ToComplex;
  }

  // What the equalizer is told.

  /** To the nearest odd integer. */
  function NearestOdd(value: real): int {
    2 * Round((value - 1.0) / 2.0) + 1
  }

  lemma NearestOddIs(value: real)
    ensures NearestOdd(value) % 2 == 1 && Abs(value - NearestOdd(value) as real) <= 1.0
  {
    var r := Round((value - 1.0) / 2.0);
    RoundIsNear((value - 1.0) / 2.0);
    hide Round;
    assert (2 * r + 1) as real == 2.0 * (r as real) + 1.0;
    AddTwos(1, r);
  }

  function Decided(y: Complex): Point {
    Point(NearestOdd(y.re), NearestOdd(y.im))
  }

  function AsComplex(p: Point): Complex {
    Complex(p.re as real, p.im as real)
  }

  /** The point that the filter would have made the decision of, had it come instead of x(n). */
  function Corrected(x: Complex, y: Complex): Complex {
    Complex(x.re + NearestOdd(y.re) as real - y.re, x.im + NearestOdd(y.im) as real - y.im)
  }

  lemma {:induction false} WhitenedShifts(w: W.Whitener, x: Complex, x': Complex, n: nat)
    requires W.WhitenerOk(w) && n <= 3
    ensures var y, y' := W.Whitened(w, x, n), W.Whitened(w, x', n);
      y'.re - x'.re == y.re - x.re && y'.im - x'.im == y.im - x.im
  {
    hide W.Times;
    if n > 0 {
      WhitenedShifts(w, x, x', n - 1);
    }
  }

  /** The target given back to the equalizer whitens to exactly the odd point nearest to y(n). */
  lemma TargetWhitens(w: W.Whitener, x: Complex)
    requires W.WhitenerOk(w)
    ensures var y := W.Whitened(w, x, 3);
      W.Whitened(w, Corrected(x, y), 3) == AsComplex(Decided(y))
    ensures OnOddGrid(Decided(W.Whitened(w, x, 3)))
  {
    hide NearestOdd, W.Whitened;
    var y := W.Whitened(w, x, 3);
    WhitenedShifts(w, x, Corrected(x, y), 3);
    NearestOddIs(y.re);
    NearestOddIs(y.im);
  }

  lemma OddWithin(value: real, p: int)
    requires p % 2 == 1 && Abs(value - p as real) < 1.0
    ensures NearestOdd(value) == p
  {
    NearestOddIs(value);
    hide NearestOdd;
    if NearestOdd(value) != p {
      OddApart(NearestOdd(value), p);
    }
  }

  /** Where y(n) is within 1 of the point sent, that point is what the target is for. */
  lemma DecidedWithin(y: Complex, p: Point)
    requires Within(y, p) && OnOddGrid(p)
    ensures Decided(y) == p
  {
    hide NearestOdd;
    OddWithin(y.re, p.re);
    OddWithin(y.im, p.im);
  }
}
