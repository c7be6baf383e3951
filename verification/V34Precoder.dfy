/** The precoder of section 9.6.2 of V.34, in fixed point, and the receiver's filter that takes it away. */
module V34Precoder {
  import opened Prelude
  import opened V34Constellation

  /** In units of 2^-14. */
  datatype Coefficient = Coefficient(re: I16, im: I16)

  type Precoding = h: seq<Coefficient> | |h| == 3 witness [Coefficient(0, 0), Coefficient(0, 0), Coefficient(0, 0)]

  /** Both components in units of 2^-7. */
  datatype Fixed = Fixed(re: int, im: int)

  const SCALE := 128
  const DIVISOR := 16384

  /** Rounded division; of two as near the one nearer to 0 (`RoundDivIs`). */
  function RoundDiv(value: int, divisor: int): int
    requires divisor > 1
  {
    var magnitude := (Magnitude(value) + divisor / 2 - 1) / divisor;
    if value < 0 then -magnitude else magnitude
  }

  function ToI32(v: int): int {
    if -0x8000_0000 <= v < 0x8000_0000 then v else 0
  }

  /** The newest point first. */
  datatype Precoder = Precoder(coefficients: Precoding, modulo: int, history: seq<Fixed>, c: Point, p: Fixed)

  function New(coefficients: Precoding, modulo: int): Precoder {
    Precoder(coefficients, modulo, [Fixed(0, 0), Fixed(0, 0), Fixed(0, 0)], Point(0, 0), Fixed(0, 0))
  }

  function Tap(x: Fixed, h: Coefficient): Fixed {
    Fixed(x.re * h.re - x.im * h.im, x.re * h.im + x.im * h.re)
  }

  /** The first `n` taps of the filter. */
  function Taps(history: seq<Fixed>, h: Precoding, n: nat): Fixed
    requires n <= |history| == 3
  {
    if n == 0 then Fixed(0, 0)
    else
      var sum, tap := Taps(history, h, n - 1), Tap(history[n - 1], h[n - 1]);
      Fixed(sum.re + tap.re, sum.im + tap.im)
  }

  /** The multiple of the modulo that is nearest to p(n). */
  function Multiple(p: int, modulo: int): int
    requires modulo > 0
  {
    ToI32(RoundDiv(p, modulo * SCALE) * modulo)
  }

  function Sent(s: Precoder, y: Point): Fixed {
    Fixed(y.re * SCALE - s.p.re, y.im * SCALE - s.p.im)
  }

  /** The precoder after one output of the channel, with the offset of the next. */
  function Push(s: Precoder, y: Point): Precoder
    requires s.modulo > 0 && |s.history| == 3
  {
    var history := [Sent(s, y), s.history[0], s.history[1]];
    var sum := Taps(history, s.coefficients, 3);
    var p := Fixed(RoundDiv(sum.re, DIVISOR), RoundDiv(sum.im, DIVISOR));
    s.(history := history, p := p, c := Point(Multiple(p.re, s.modulo), Multiple(p.im, s.modulo)))
  }

  // Rounding.

  /** The result is nearest, and of two that are the smaller. */
  lemma RoundDivIs(value: int, divisor: int)
    requires divisor > 1 && divisor % 2 == 0
    ensures var r := RoundDiv(value, divisor);
      && 2 * Magnitude(value - divisor * r) <= divisor
      && (2 * Magnitude(value - divisor * r) == divisor ==> divisor * Magnitude(r) <= Magnitude(value))
      && divisor * Magnitude(r) <= Magnitude(value) + divisor / 2 - 1
  {
    var m := Magnitude(value) + divisor / 2 - 1;
    var q := m / divisor;
    assert m == divisor * q + m % divisor;
    assert q >= 0 by {
      QuotientIsPositive(m, divisor);
    }
    assert divisor * -q == -(divisor * q);
  }

  lemma QuotientIsPositive(m: int, d: int)
    requires d > 1 && m >= 0
    ensures m / d >= 0
  {
  }

  /** A tap is the product of complex numbers: additive, the coefficient itself at 1, and turned with the sample. */
  lemma TapMultiplies(x: Fixed, y: Fixed, h: Coefficient)
    ensures Tap(Fixed(1, 0), h) == Fixed(h.re, h.im)
    ensures var a, b := Tap(x, h), Tap(y, h); Tap(Fixed(x.re + y.re, x.im + y.im), h) == Fixed(a.re + b.re, a.im + b.im)
    ensures var a := Tap(x, h); Tap(Fixed(-x.im, x.re), h) == Fixed(-a.im, a.re)
  {
    Distributes(x.re, y.re, h.re);
    Distributes(x.im, y.im, h.im);
    Distributes(x.re, y.re, h.im);
    Distributes(x.im, y.im, h.re);
  }

  lemma Distributes(a: int, b: int, k: int)
    ensures (a + b) * k == a * k + b * k
    ensures -a * k == -(a * k)
  {
  }

  // Bounds that hold however long it runs.

  /** How far x(n) can be from 0 in each component. */
  const MOST_SENT := 6528
  /** How far p(n) can be. */
  const MOST_FILTERED := 78336

  predicate Below(x: Fixed, most: nat) {
    Magnitude(x.re) <= most && Magnitude(x.im) <= most
  }

  predicate PrecoderOk(s: Precoder) {
    && (s.modulo == 2 || s.modulo == 4)
    && |s.history| == 3
    && (forall i :: 0 <= i < 3 ==> Below(s.history[i], MOST_SENT))
    && Below(s.p, MOST_FILTERED)
    && s.c == Point(Multiple(s.p.re, s.modulo), Multiple(s.p.im, s.modulo))
  }

  lemma NothingRounds(modulo: int)
    requires modulo == 2 || modulo == 4
    ensures Multiple(0, modulo) == 0
  {
    hide RoundDiv;
    NothingDivides(256);
    NothingDivides(512);
  }

  lemma NothingDivides(divisor: int)
    requires divisor == 256 || divisor == 512
    ensures RoundDiv(0, divisor) == 0
  {
  }

  lemma NewIsOk(coefficients: Precoding, modulo: int)
    requires modulo == 2 || modulo == 4
    ensures PrecoderOk(New(coefficients, modulo))
  {
    hide Multiple;
    NothingRounds(modulo);
  }

  lemma ProductBelow(a: int, b: int, m: nat, n: nat)
    requires Magnitude(a) <= m && Magnitude(b) <= n
    ensures Magnitude(a * b) <= m * n
  {
    assert (m - a) * (n + b) >= 0 && (m + a) * (n - b) >= 0;
    assert (m - a) * (n - b) >= 0 && (m + a) * (n + b) >= 0;
  }

  lemma TapBelow(x: Fixed, h: Coefficient)
    requires Below(x, MOST_SENT)
    ensures Below(Tap(x, h), 2 * 213909504)
  {
    ProductBelow(x.re, h.re, MOST_SENT, 32768);
    ProductBelow(x.im, h.im, MOST_SENT, 32768);
    ProductBelow(x.re, h.im, MOST_SENT, 32768);
    ProductBelow(x.im, h.re, MOST_SENT, 32768);
  }

  /** Every partial sum is far inside 64 bits. */
  lemma {:induction false} TapsBelow(history: seq<Fixed>, h: Precoding, n: nat)
    requires n <= |history| == 3
    requires forall i :: 0 <= i < 3 ==> Below(history[i], MOST_SENT)
    ensures Below(Taps(history, h, n), n * 427819008)
    ensures n * 427819008 + DIVISOR < 0x8000_0000_0000_0000
  {
    hide Tap;
    if n > 0 {
      TapsBelow(history, h, n - 1);
      TapBelow(history[n - 1], h[n - 1]);
    }
  }

  lemma FilteredBelow(sum: int)
    requires -1283457024 <= sum <= 1283457024
    ensures -MOST_FILTERED <= RoundDiv(sum, DIVISOR) <= MOST_FILTERED
  {
    hide RoundDiv;
    RoundDivIs(sum, DIVISOR);
  }

  /** c(n) is a multiple of the modulo within half of it of p(n), and never the fallback. */
  lemma MultipleIs(p: int, modulo: int)
    requires modulo == 2 || modulo == 4
    requires -MOST_FILTERED <= p <= MOST_FILTERED
    ensures Multiple(p, modulo) == RoundDiv(p, modulo * SCALE) * modulo
    ensures Multiple(p, modulo) % modulo == 0
    ensures Magnitude(SCALE * Multiple(p, modulo) - p) <= 64 * modulo
  {
    hide RoundDiv;
    RoundDivIs(p, modulo * SCALE);
    var r := RoundDiv(p, modulo * SCALE);
    if modulo == 2 {
      assert (r * 2) % 2 == 0;
    } else {
      assert (r * 4) % 4 == 0;
    }
  }

  /** A point of the constellation, less than 50 in each component. */
  predicate InConstellation(u: Point) {
    -49 <= u.re <= 49 && -49 <= u.im <= 49
  }

  /** One more point keeps every bound, and x(n) stays within half the modulo of u(n). */
  lemma PushKeeps(s: Precoder, u: Point)
    requires PrecoderOk(s) && InConstellation(u)
    ensures var x := Sent(s, Plus(u, s.c));
      && Magnitude(x.re - SCALE * u.re) <= 64 * s.modulo
      && Magnitude(x.im - SCALE * u.im) <= 64 * s.modulo
    ensures PrecoderOk(Push(s, Plus(u, s.c)))
  {
    hide Multiple, RoundDiv, Taps;
    MultipleIs(s.p.re, s.modulo);
    MultipleIs(s.p.im, s.modulo);
    var x := Sent(s, Plus(u, s.c));
    var history := [x, s.history[0], s.history[1]];
    assert Below(x, MOST_SENT);
    assert forall i :: 0 <= i < 3 ==> Below(history[i], MOST_SENT);
    TapsBelow(history, s.coefficients, 3);
    var sum := Taps(history, s.coefficients, 3);
    FilteredBelow(sum.re);
    FilteredBelow(sum.im);
  }

  /** The precoder after points u(n), each offset by the c(n) of its time. */
  function Run(s: Precoder, us: seq<Point>): Precoder
    requires PrecoderOk(s) && forall u :: u in us ==> InConstellation(u)
    ensures PrecoderOk(Run(s, us))
    decreases |us|
  {
    hide PrecoderOk, Push;
    if us == [] then s
    else
      PushKeeps(s, us[0]);
      PrecoderShape(s);
      Run(Push(s, Plus(us[0], s.c)), us[1..])
  }

  lemma PrecoderShape(s: Precoder)
    requires PrecoderOk(s)
    ensures s.modulo > 0 && |s.history| == 3
  {
  }

  /** Numbers that a signed 64-bit integer holds. */
  const I64_END := 0x8000_0000_0000_0000

  /** No sum, partial sum or numerator that a push works out from these points overflows 64 bits. */
  ghost predicate NoOverflow(s: Precoder)
    requires |s.history| == 3 && s.modulo > 0
  {
    && (forall n: nat :: n <= 3 ==> Below(Taps(s.history, s.coefficients, n), I64_END - DIVISOR))
    && Magnitude(s.p.re) + s.modulo * SCALE < I64_END
    && Magnitude(s.p.im) + s.modulo * SCALE < I64_END
    && Magnitude(RoundDiv(s.p.re, s.modulo * SCALE) * s.modulo) < I64_END
    && Magnitude(RoundDiv(s.p.im, s.modulo * SCALE) * s.modulo) < I64_END
  }

  lemma OkOverflowsNowhere(s: Precoder)
    requires PrecoderOk(s)
    ensures s.modulo > 0 && NoOverflow(s)
  {
    hide RoundDiv, Taps, Multiple;
    forall n: nat | n <= 3 ensures Below(Taps(s.history, s.coefficients, n), I64_END - DIVISOR) {
      TapsBelow(s.history, s.coefficients, n);
    }
    MultipleIs(s.p.re, s.modulo);
    MultipleIs(s.p.im, s.modulo);
  }

  /** However long it has run and whatever was asked of it, the filter stays bounded, nothing overflows and no fallback
      is taken. */
  lemma Stable(coefficients: Precoding, modulo: int, us: seq<Point>, u: Point)
    requires modulo == 2 || modulo == 4
    requires (forall v :: v in us ==> InConstellation(v)) && InConstellation(u)
    ensures PrecoderOk(New(coefficients, modulo))
    ensures var s := Run(New(coefficients, modulo), us);
      var x := Sent(s, Plus(u, s.c));
      && Magnitude(x.re - SCALE * u.re) <= 64 * s.modulo
      && Magnitude(x.im - SCALE * u.im) <= 64 * s.modulo
      && Below(s.p, 78336)
      && NoOverflow(s)
      && s.c.re == RoundDiv(s.p.re, s.modulo * SCALE) * s.modulo
      && s.c.im == RoundDiv(s.p.im, s.modulo * SCALE) * s.modulo
  {
    hide Push, RoundDiv, Multiple, Run, NoOverflow;
    NewIsOk(coefficients, modulo);
    var s := Run(New(coefficients, modulo), us);
    PushKeeps(s, u);
    OkOverflowsNowhere(s);
    MultipleIs(s.p.re, s.modulo);
    MultipleIs(s.p.im, s.modulo);
  }

  /** Both components of c(n) are even. */
  lemma OffsetIsEven(s: Precoder)
    requires PrecoderOk(s)
    ensures s.c.re % 2 == 0 && s.c.im % 2 == 0
  {
    hide Multiple;
    MultipleIs(s.p.re, s.modulo);
    MultipleIs(s.p.im, s.modulo);
    HalvesOfFours(s.c.re);
    HalvesOfFours(s.c.im);
  }

  lemma HalvesOfFours(c: int)
    ensures c % 4 == 0 ==> c % 2 == 0
  {
    var k := c / 4;
    assert c == 4 * k + c % 4;
    assert c % 4 == 0 ==> c == 2 * (2 * k);
  }
}
