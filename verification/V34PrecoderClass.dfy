/** The precoder and the whitener of V.34 as objects that change, against their specifications. */
module V34PrecoderClass {
  import opened Prelude
  import opened V34Constellation
  import opened V34Nearest
  import N = V34Warp
  import P = V34Precoder
  import W = V34Whitener

  class Precoder {
    const coefficients: P.Precoding
    const modulo: int
    var history: seq<P.Fixed>
    var c: Point
    var p: P.Fixed

    ghost function View(): P.Precoder
      reads this
    {
      P.Precoder(coefficients, modulo, history, c, p)
    }

    ghost predicate Valid()
      reads this
    {
      modulo > 0 && |history| == 3
    }

    constructor (coefficients: P.Precoding, modulo: int)
      requires modulo > 0
      ensures View() == P.New(coefficients, modulo) && Valid()
    {
      this.coefficients, this.modulo := coefficients, modulo;
      history := [P.Fixed(0, 0), P.Fixed(0, 0), P.Fixed(0, 0)];
      c, p := Point(0, 0), P.Fixed(0, 0);
    }

    /** The modelled x(n), and the modelled precoder for the point after it. */
    method Push(y: Point) returns (x: P.Fixed)
      requires Valid()
      modifies this
      ensures Valid() && View() == P.Push(old(View()), y)
      ensures x == P.Sent(old(View()), y)
    {
      hide P.RoundDiv, P.Multiple;
      x := P.Fixed(y.re * P.SCALE - p.re, y.im * P.SCALE - p.im);
      history := [x, history[0], history[1]];
      var re, im := 0, 0;
      for n := 0 to 3
        invariant P.Fixed(re, im) == P.Taps(history, coefficients, n)
      {
        var past, h := history[n], coefficients[n];
        re := re + (past.re * h.re - past.im * h.im);
        im := im + (past.re * h.im + past.im * h.re);
      }
      p := P.Fixed(P.RoundDiv(re, P.DIVISOR), P.RoundDiv(im, P.DIVISOR));
      c := Point(P.Multiple(p.re, modulo), P.Multiple(p.im, modulo));
    }
  }

  /** Newton's method in a loop. */
  method Unwarp(heard: N.Heard, energy: real) returns (x: Complex)
    requires energy > 0.0
    ensures x == N.Unwarp(heard, energy)
  {
    hide N.Closer, N.Times;
    if heard.magnitude == 0.0 {
      return heard.z;
    }
    var r := heard.magnitude;
    for n := 0 to N.ROUNDS
      invariant r == N.Newton(heard.magnitude, energy, n)
    {
      r := N.Closer(r, heard.magnitude, energy);
    }
    x := N.Times(heard.z, r / heard.magnitude);
  }

  class Whitener {
    const coefficients: seq<Complex>
    const nonlinear: N.Nonlinear
    var history: seq<Complex>

    ghost function View(): W.Whitener
      reads this
    {
      W.Whitener(coefficients, history)
    }

    ghost predicate Valid()
      reads this
    {
      W.WhitenerOk(View())
    }

    constructor (h: P.Precoding, nonlinear: N.Nonlinear)
      ensures View() == W.New(h) && Valid() && this.nonlinear == nonlinear
    {
      coefficients := [W.Scaled(h[0]), W.Scaled(h[1]), W.Scaled(h[2])];
      this.nonlinear := nonlinear;
      history := [Complex(0.0, 0.0), Complex(0.0, 0.0), Complex(0.0, 0.0)];
    }

    /** The channel output for an equalized point, and the point that would have given the odd one nearest to it. */
    method Push(heard: N.Heard) returns (y: Complex, target: Complex)
      requires Valid()
      modifies this`history
      ensures var x := N.Unwarped(nonlinear, heard);
        && Valid() && View() == W.Push(old(View()), x)
        && y == W.Whitened(old(View()), x, 3)
        && target == N.Warped(nonlinear, N.Corrected(x, y))
        && W.Whitened(old(View()), N.Corrected(x, y), 3) == N.AsComplex(N.Decided(y))
    {
      hide Mul, N.Unwarp, N.Warp, N.NearestOdd, N.Decided;
      var x := heard.z;
      if nonlinear.Some? {
        x := Unwarp(heard, nonlinear.value);
      }
      y := x;
      for n := 0 to 3
        invariant View() == old(View()) && y == W.Whitened(View(), x, n)
      {
        y := W.Add(y, W.Times(history[n], coefficients[n]));
      }
      N.TargetWhitens(View(), x);
      history := [x, history[0], history[1]];
      target := Complex(x.re + N.NearestOdd(y.re) as real - y.re, x.im + N.NearestOdd(y.im) as real - y.im);
      if nonlinear.Some? {
        target := N.Warp(target, nonlinear.value);
      }
    }
  }
}
