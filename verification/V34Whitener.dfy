/** The filter that undoes the V.34 precoder, and how near it comes to y(n) from points that are off. */
module V34Whitener {
  import opened Prelude
  import opened V34Constellation
  import opened V34Nearest
  import P = V34Precoder

  function Add(a: Complex, b: Complex): Complex {
    Complex(a.re + b.re, a.im + b.im)
  }

  function Times(a: Complex, b: Complex): Complex {
    Complex(Mul(a.re, b.re) - Mul(a.im, b.im), Mul(a.re, b.im) + Mul(a.im, b.re))
  }

  /** Coefficients in whole units, and the last points, newest first. */
  datatype Whitener = Whitener(coefficients: seq<Complex>, history: seq<Complex>)

  predicate WhitenerOk(w: Whitener) {
    |w.coefficients| == |w.history| == 3
  }

  function Scaled(h: P.Coefficient): Complex {
    Complex(h.re as real / 16384.0, h.im as real / 16384.0)
  }

  function New(h: P.Precoding): (w: Whitener)
    ensures WhitenerOk(w)
  {
    var zero := Complex(0.0, 0.0);
    Whitener([Scaled(h[0]), Scaled(h[1]), Scaled(h[2])], [zero, zero, zero])
  }

  /** y with the first `n` taps added. */
  function Whitened(w: Whitener, z: Complex, n: nat): Complex
    requires WhitenerOk(w) && n <= 3
  {
    if n == 0 then z else Add(Whitened(w, z, n - 1), Times(w.history[n - 1], w.coefficients[n - 1]))
  }

  function Push(w: Whitener, z: Complex): (after: Whitener)
    requires WhitenerOk(w)
    ensures WhitenerOk(after)
  {
    w.(history := [z, w.history[0], w.history[1]])
  }

  /** A fixed-point number as a point of the plane. */
  function ToComplex(x: P.Fixed): Complex {
    Complex(x.re as real / 128.0, x.im as real / 128.0)
  }

  /** How far off an equalized point may be in each component. */
  const NOISE := 1.0 / 14.0

  predicate Near(z: Complex, x: Complex, most: real) {
    Abs(z.re - x.re) <= most && Abs(z.im - x.im) <= most
  }

  /** The filter with the precoder's own points in it. */
  function Ideal(s: P.Precoder): (w: Whitener)
    requires |s.history| == 3
    ensures WhitenerOk(w)
  {
    Whitener(
      [Scaled(s.coefficients[0]), Scaled(s.coefficients[1]), Scaled(s.coefficients[2])],
      [ToComplex(s.history[0]), ToComplex(s.history[1]), ToComplex(s.history[2])])
  }

  /** The filter has in it what the precoder sent, but for the noise. */
  predicate InStep(w: Whitener, s: P.Precoder) {
    && WhitenerOk(w)
    && |s.history| == 3
    && (forall i :: 0 <= i < 3 ==> Near(w.history[i], Ideal(s).history[i], NOISE))
    && w.coefficients == Ideal(s).coefficients
  }

  predicate Filtered(s: P.Precoder)
    requires |s.history| == 3
  {
    var sum := P.Taps(s.history, s.coefficients, 3);
    s.p == P.Fixed(P.RoundDiv(sum.re, P.DIVISOR), P.RoundDiv(sum.im, P.DIVISOR))
  }

  lemma NewIsInStep(h: P.Precoding, modulo: int)
    ensures InStep(New(h), P.New(h, modulo)) && Filtered(P.New(h, modulo))
  {
    var s := P.New(h, modulo);
    assert P.Taps(s.history, h, 3) == P.Fixed(0, 0) by {
      NoTaps(s.history, h, 3);
    }
    assert P.RoundDiv(0, P.DIVISOR) == 0;
    assert ToComplex(P.Fixed(0, 0)) == Complex(0.0, 0.0);
  }

  lemma {:induction false} NoTaps(history: seq<P.Fixed>, h: P.Precoding, n: nat)
    requires n <= |history| == 3
    requires forall i :: 0 <= i < 3 ==> history[i] == P.Fixed(0, 0)
    ensures P.Taps(history, h, n) == P.Fixed(0, 0)
  {
    if n > 0 {
      NoTaps(history, h, n - 1);
    }
  }

  lemma PushInStep(w: Whitener, s: P.Precoder, y: Point, z: Complex)
    requires InStep(w, s) && s.modulo > 0 && Near(z, ToComplex(P.Sent(s, y)), NOISE)
    ensures InStep(Push(w, z), P.Push(s, y)) && Filtered(P.Push(s, y))
  {
    hide P.Taps, P.RoundDiv, P.Multiple, ToComplex, Scaled, P.Sent, Near;
  }

  const UNIT := 2097152.0

  lemma ProductScales(a: int, b: int)
    ensures a as real / 128.0 * (b as real / 16384.0) == (a * b) as real / UNIT
  {
    var x, y := a as real, b as real;
    assert (a * b) as real == x * y;
  }

  lemma TapScales(x: P.Fixed, h: P.Coefficient)
    ensures var tap := P.Tap(x, h);
      Times(ToComplex(x), Scaled(h)) == Complex(tap.re as real / UNIT, tap.im as real / UNIT)
  {
    ProductScales(x.re, h.re);
    ProductScales(x.im, h.im);
    ProductScales(x.re, h.im);
    ProductScales(x.im, h.re);
  }

  lemma {:induction false} WhitenedIs(w: Whitener, s: P.Precoder, z: Complex, n: nat)
    requires |s.history| == 3 && w == Ideal(s) && n <= 3
    ensures var sum := P.Taps(s.history, s.coefficients, n);
      Whitened(w, z, n) == Complex(z.re + sum.re as real / UNIT, z.im + sum.im as real / UNIT)
  {
    hide Times, P.Tap, ToComplex, Scaled;
    if n > 0 {
      WhitenedIs(w, s, z, n - 1);
      TapScales(s.history[n - 1], s.coefficients[n - 1]);
    }
  }

  lemma RoundingIsSmall(sum: int, p: int)
    requires 2 * Magnitude(sum - P.DIVISOR * p) <= P.DIVISOR
    ensures Abs(sum as real / UNIT - p as real / 128.0) <= 1.0 / 256.0
  {
    var d := sum - P.DIVISOR * p;
    assert d as real == sum as real - 16384.0 * p as real;
    assert sum as real / UNIT - p as real / 128.0 == d as real / UNIT;
    assert -8192 <= d <= 8192;
  }

  lemma NearCoordinate(y: int, p: int, sum: int)
    requires 2 * Magnitude(sum - P.DIVISOR * p) <= P.DIVISOR
    ensures Abs((y * P.SCALE - p) as real / 128.0 + sum as real / UNIT - y as real) <= 1.0 / 256.0
  {
    RoundingIsSmall(sum, p);
    assert (y * P.SCALE - p) as real / 128.0 == y as real - p as real / 128.0;
  }

  /** What the precoder took away comes back to within the rounding of p(n), half of 2^-7. */
  lemma IdealIsNear(s: P.Precoder, y: Point)
    requires |s.history| == 3 && Filtered(s)
    ensures Near(Whitened(Ideal(s), ToComplex(P.Sent(s, y)), 3), Complex(y.re as real, y.im as real), 1.0 / 256.0)
  {
    hide Abs, P.RoundDiv, P.Taps, Whitened, Ideal;
    var sum := P.Taps(s.history, s.coefficients, 3);
    WhitenedIs(Ideal(s), s, ToComplex(P.Sent(s, y)), 3);
    P.RoundDivIs(sum.re, P.DIVISOR);
    P.RoundDivIs(sum.im, P.DIVISOR);
    NearCoordinate(y.re, s.p.re, sum.re);
    NearCoordinate(y.im, s.p.im, sum.im);
  }

  lemma ProductPositive(a: real, b: real)
    requires a >= 0.0 && b >= 0.0
    ensures a * b >= 0.0
  {
  }

  lemma ProductMoves(d: real, c: real, most: real)
    requires Abs(d) <= most && Abs(c) <= 2.0
    ensures Abs(Mul(d, c)) <= 2.0 * most
  {
    ProductPositive(most - d, 2.0 + c);
    ProductPositive(most + d, 2.0 - c);
    ProductPositive(most - d, 2.0 - c);
    ProductPositive(most + d, 2.0 + c);
  }

  lemma MulDistributes(a: real, b: real, c: real)
    ensures Mul(a + b, c) == Mul(a, c) + Mul(b, c)
  {
  }

  lemma DifferenceMoves(a: real, b: real, c: real, most: real)
    requires Abs(a - b) <= most && Abs(c) <= 2.0
    ensures Abs(Mul(a, c) - Mul(b, c)) <= 2.0 * most
  {
    hide Mul;
    ProductMoves(a - b, c, most);
    MulDistributes(b, a - b, c);
    assert b + (a - b) == a;
  }

  lemma PartsMove(p: real, q: real, r: real, s: real, most: real)
    requires Abs(p - q) <= most && Abs(r - s) <= most
    ensures Abs(p - r - (q - s)) <= 2.0 * most && Abs(p + r - (q + s)) <= 2.0 * most
  {
  }

  lemma TapMoves(a: Complex, b: Complex, c: Complex)
    requires Near(a, b, NOISE) && Abs(c.re) <= 2.0 && Abs(c.im) <= 2.0
    ensures Near(Times(a, c), Times(b, c), 4.0 * NOISE)
  {
    hide Abs, Mul;
    DifferenceMoves(a.re, b.re, c.re, NOISE);
    DifferenceMoves(a.im, b.im, c.im, NOISE);
    DifferenceMoves(a.re, b.re, c.im, NOISE);
    DifferenceMoves(a.im, b.im, c.re, NOISE);
    PartsMove(Mul(a.re, c.re), Mul(b.re, c.re), Mul(a.im, c.im), Mul(b.im, c.im), 2.0 * NOISE);
    PartsMove(Mul(a.re, c.im), Mul(b.re, c.im), Mul(a.im, c.re), Mul(b.im, c.re), 2.0 * NOISE);
  }

  lemma CoefficientsAreSmall(s: P.Precoder, i: nat)
    requires |s.history| == 3 && i < 3
    ensures Abs(Ideal(s).coefficients[i].re) <= 2.0 && Abs(Ideal(s).coefficients[i].im) <= 2.0
  {
  }

  lemma NearAdds(a: Complex, b: Complex, c: Complex, d: Complex, m: real, n: real)
    requires Near(a, b, m) && Near(c, d, n)
    ensures Near(Add(a, c), Add(b, d), m + n)
  {
  }

  lemma {:induction false} WhitenedMoves(w: Whitener, s: P.Precoder, z: Complex, x: Complex, n: nat)
    requires InStep(w, s) && Near(z, x, NOISE) && n <= 3
    ensures Near(Whitened(w, z, n), Whitened(Ideal(s), x, n), (4 * n + 1) as real * NOISE)
  {
    hide Near, Times, Add, Ideal, Abs;
    if n > 0 {
      var i := n - 1;
      WhitenedMoves(w, s, z, x, i);
      CoefficientsAreSmall(s, i);
      TapMoves(w.history[i], Ideal(s).history[i], w.coefficients[i]);
      NearAdds(
        Whitened(w, z, i), Whitened(Ideal(s), x, i),
        Times(w.history[i], w.coefficients[i]), Times(Ideal(s).history[i], w.coefficients[i]),
        (4 * i + 1) as real * NOISE, 4.0 * NOISE);
      assert (4 * i + 1) as real * NOISE + 4.0 * NOISE == (4 * n + 1) as real * NOISE;
    }
  }

  /** Points off by up to a fourteenth give y(n) to less than 1, whatever the coefficients. */
  lemma WhitenedIsNear(w: Whitener, s: P.Precoder, y: Point, z: Complex)
    requires InStep(w, s) && Filtered(s) && Near(z, ToComplex(P.Sent(s, y)), NOISE)
    ensures Within(Whitened(w, z, 3), y)
  {
    hide Whitened, Ideal, ToComplex, P.Sent, P.Taps, P.RoundDiv;
    var x := ToComplex(P.Sent(s, y));
    WhitenedMoves(w, s, z, x, 3);
    IdealIsNear(s, y);
  }
}
