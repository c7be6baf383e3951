/** Which bits go into which mapping frame at each rate of V.34, and how they are mapped (sections 8 and 9.2). */
module V34Framing {
  import opened Prelude
  import opened Arithmetic

  datatype SymbolRate = S2400 | S2743 | S2800 | S3000 | S3200 | S3429

  /** Everything that the rate fixes; `FramingOk` says what the rest may rely on. */
  datatype Framing = Framing(
    symbolRate: SymbolRate,
    bitRate: nat,
    j: nat,
    p: nat,
    b: nat,
    r: nat,
    k: nat,
    q: nat,
    rings: nat,
    points: nat)

  /** Between these, in steps of 2400, a framing exists (`NewIsOk`). */
  function Rates(rate: SymbolRate): (nat, nat) {
    match rate
    case S2400 => (2400, 21600)
    case S2743 => (4800, 26400)
    case S2800 => (4800, 26400)
    case S3000 => (4800, 28800)
    case S3200 => (4800, 31200)
    case S3429 => (4800, 33600)
  }

  /** J and P of table 7 by the symbol rate. */
  function Frames(rate: SymbolRate): (nat, nat) {
    match rate
    case S2400 => (7, 12)
    case S2743 => (8, 12)
    case S2800 => (7, 14)
    case S3000 => (7, 15)
    case S3200 => (7, 16)
    case S3429 => (8, 15)
  }

  function DivCeil(a: nat, m: nat): nat
    requires m > 0
  {
    (a + m - 1) / m
  }

  function Eighth(m: nat): nat {
    var square := m * m;
    var fourth := square * square;
    fourth * fourth
  }

  const MOST_RINGS := 18

  /** Enough rings for K bits. */
  predicate Enough(k: nat, m: nat) {
    Eighth(m) >= Pow2(k)
  }

  /** At least 1.25 times the eighth root of 2^K, rounded: that is below m + 1/2. */
  predicate Larger(k: nat, m: nat) {
    Eighth(5) * Pow2(k) < Eighth(4 * m + 2)
  }

  function LeastEnough(k: nat, m: nat): Option<nat>
    decreases MOST_RINGS + 1 - m
  {
    if m > MOST_RINGS then None else if Enough(k, m) then Some(m) else LeastEnough(k, m + 1)
  }

  function LeastLarger(k: nat, m: nat): Option<nat>
    decreases MOST_RINGS + 1 - m
  {
    if m > MOST_RINGS then None else if Larger(k, m) then Some(m) else LeastLarger(k, m + 1)
  }

  /** M of table 10 without expansion and with it. */
  function RingCounts(k: nat): Option<(nat, nat)> {
    var minimum, larger := LeastEnough(k, 1), LeastLarger(k, 1);
    if minimum.None? || larger.None? then None
    else Some((minimum.value, if larger.value > minimum.value then larger.value else minimum.value))
  }

  /** The shell mapper's share of a high frame's bits, and q for each point. */
  function ShellAndRest(b: nat): (nat, nat) {
    if b <= 12 then (0, 0)
    else
      var q := DivCeil(if b - 12 < 31 then 0 else b - 12 - 31, 8);
      (b - 12 - 8 * q, q)
  }

  predicate Allowed(rate: SymbolRate, bitRate: nat) {
    bitRate % 2400 == 0 && Rates(rate).0 <= bitRate <= Rates(rate).1
  }

  /** The bits of a data frame, b and r. */
  function FrameBits(rate: SymbolRate, bitRate: nat): (nat, nat, int) {
    var (j, p) := Frames(rate);
    var n := bitRate * 28 / 100 / j;
    var b := DivCeil(n, p);
    (n, b, n - (b - 1) * p)
  }

  lemma CeilIs(n: nat, p: nat)
    requires 12 <= p <= 16 && n > 0
    ensures var b := DivCeil(n, p); b >= 1 && 1 <= n - (b - 1) * p <= p
  {
    var b := DivCeil(n, p);
    DivModDef(n + p - 1, p);
    assert n + p - 1 == b * p + (n + p - 1) % p;
    assert b * p == (b - 1) * p + p;
    if b == 0 {
      assert false;
    }
  }

  lemma BitsIn100ths(i: nat)
    ensures 2400 * i * 28 / 100 == 672 * i && 672 * i / 7 == 96 * i && 672 * i / 8 == 84 * i
  {
  }

  predicate SizeOk(n: nat, p: nat)
    requires p > 0
  {
    var b := DivCeil(n, p);
    8 <= b <= 79 && (b == 8 ==> n == 8 * p)
  }

  lemma SizesAre(i: nat)
    ensures 1 <= i <= 9 ==> SizeOk(96 * i, 12)
    ensures 2 <= i <= 11 ==> SizeOk(84 * i, 12) && SizeOk(96 * i, 14)
    ensures 2 <= i <= 12 ==> SizeOk(96 * i, 15)
    ensures 2 <= i <= 13 ==> SizeOk(96 * i, 16)
    ensures 2 <= i <= 14 ==> SizeOk(84 * i, 15)
  {
  }

  lemma FrameBitsAre(rate: SymbolRate, bitRate: nat)
    requires Allowed(rate, bitRate)
    ensures var (j, p) := Frames(rate);
      var (n, b, r) := FrameBits(rate, bitRate);
      && 100 * j * n == 28 * bitRate
      && n == (b - 1) * p + r
      && 1 <= r <= p
      && 8 <= b <= 79
      && (b == 8 ==> r == p)
  {
    hide DivCeil, Allowed, Rates, SizeOk;
    var i := SizeIs(rate, bitRate);
    var (j, p) := Frames(rate);
    var n := if j == 7 then 96 * i else 84 * i;
    CeilIs(n, p);
    SizeFits(n, p);
  }

  lemma SizeFits(n: nat, p: nat)
    requires p > 0 && SizeOk(n, p)
    ensures var b := DivCeil(n, p); 8 <= b <= 79 && (b == 8 ==> n == 8 * p)
  {
  }

  /** N in terms of the multiple of 2400 bits per second. */
  lemma SizeIs(rate: SymbolRate, bitRate: nat) returns (i: nat)
    requires Allowed(rate, bitRate)
    ensures bitRate == 2400 * i && i > 0
    ensures var (j, p) := Frames(rate);
      var n := if j == 7 then 96 * i else 84 * i;
      FrameBits(rate, bitRate).0 == n && SizeOk(n, p)
  {
    hide DivCeil;
    i := bitRate / 2400;
    BitsIn100ths(i);
    SizesAre(i);
  }

  lemma BitsLeftOver(rate: SymbolRate, bitRate: nat)
    requires Allowed(rate, bitRate)
    ensures FrameBits(rate, bitRate).2 >= 1
  {
    hide FrameBits;
    FrameBitsAre(rate, bitRate);
  }

  /** q is the least that leaves the shell mapper no more than 31 bits. */
  lemma ShellAndRestAre(b: nat)
    requires 12 < b <= 79
    ensures var (k, q) := ShellAndRest(b);
      1 <= k <= 31 && q <= 5 && b == 12 + k + 8 * q && (q == 5 ==> k <= 27) && (q > 0 ==> k + 8 > 31)
  {
  }

  /** L of table 10: four turns of each label that the rings and q reach. */
  function Points(rings: nat, q: nat): nat {
    4 * (rings * Pow2(q))
  }

  /** A framing for exactly the allowed rates, each with what `FramingOk` asks. */
  function New(rate: SymbolRate, bitRate: nat, expanded: bool): Option<Framing> {
    if !Allowed(rate, bitRate) then None
    else
      var (j, p) := Frames(rate);
      BitsLeftOver(rate, bitRate);
      hide FrameBits, Allowed, RingCounts, ShellAndRest, Points;
      var (n, b, r) := FrameBits(rate, bitRate);
      var (k, q) := ShellAndRest(b);
      var counts := RingCounts(k);
      if counts.None? then None
      else
        var rings := if expanded then counts.value.1 else counts.value.0;
        Some(Framing(rate, bitRate, j, p, b, r, k, q, rings, Points(rings, q)))
  }

  /** What the mapping of section 9 relies on. */
  predicate FramingOk(f: Framing) {
    && (f.j == 7 || f.j == 8)
    && f.p > 0
    && 1 <= f.r <= f.p
    && f.b >= 8
    && (f.b == 8 ==> f.r == f.p)
    && f.rings >= 1
    && f.rings * Pow2(f.q) <= 416
    && f.points == Points(f.rings, f.q)
    && Pow2(f.k) <= Eighth(f.rings)
    && if f.b <= 12 then f.k == 0 && f.q == 0 else f.k >= 1 && f.b == 12 + f.k + 8 * f.q
  }

  lemma {:induction false} LeastEnoughIs(k: nat, m: nat, n: nat)
    requires m <= n <= MOST_RINGS && Enough(k, n)
    ensures LeastEnough(k, m).Some? && m <= LeastEnough(k, m).value <= n && Enough(k, LeastEnough(k, m).value)
    decreases n - m
  {
    hide Enough;
    if !Enough(k, m) {
      LeastEnoughIs(k, m + 1, n);
    }
  }

  lemma {:induction false} LeastLargerIs(k: nat, m: nat, n: nat)
    requires m <= n <= MOST_RINGS && Larger(k, n)
    ensures LeastLarger(k, m).Some? && m <= LeastLarger(k, m).value <= n
    decreases n - m
  {
    hide Larger;
    if !Larger(k, m) {
      LeastLargerIs(k, m + 1, n);
    }
  }

  lemma EighthGrows(m: nat, n: nat)
    requires m <= n
    ensures Eighth(m) <= Eighth(n)
  {
    MulMonotone(m, n, m);
    MulMonotone(m, n, n);
    var a, b := m * m, n * n;
    MulMonotone(a, b, a);
    MulMonotone(a, b, b);
    var c, d := a * a, b * b;
    MulMonotone(c, d, c);
    MulMonotone(c, d, d);
  }

  /** `n` rings take the widest shell of K bits, so they take a narrower one. */
  lemma RingCountsBelow(k: nat, most: nat, n: nat)
    requires k <= most && 1 <= n <= MOST_RINGS && Enough(most, n) && Larger(most, n)
    ensures RingCounts(k).Some?
    ensures var (minimum, expanded) := RingCounts(k).value;
      1 <= minimum <= expanded <= n && Pow2(k) <= Eighth(minimum) <= Eighth(expanded)
  {
    hide Eighth, Pow2;
    Pow2Grows(k, most);
    MulMonotone(Pow2(k), Pow2(most), Eighth(5));
    assert Enough(k, n) && Larger(k, n);
    hide Larger;
    LeastEnoughIs(k, 1, n);
    LeastLargerIs(k, 1, n);
    var (minimum, expanded) := RingCounts(k).value;
    EighthGrows(minimum, expanded);
  }

  lemma PowersOfTwo()
    ensures Pow2(0) == 1 && Pow2(4) == 16 && Pow2(5) == 32 && Pow2(27) == 134217728 && Pow2(31) == 2147483648
  {
    assert Pow2(10) == 1024 && Pow2(7) == 128;
    Pow2Adds(10, 10);
    Pow2Adds(20, 7);
    Pow2Adds(27, 4);
  }

  lemma RingsFor31()
    ensures Enough(31, 18) && Larger(31, 18)
  {
    hide Pow2;
    PowersOfTwo();
  }

  lemma RingsFor27()
    ensures Enough(27, 13) && Larger(27, 13)
  {
    hide Pow2;
    PowersOfTwo();
  }

  lemma RingsFit(k: nat, q: nat)
    requires k <= 31 && q <= 5 && (q == 5 ==> k <= 27)
    ensures RingCounts(k).Some?
    ensures var (minimum, expanded) := RingCounts(k).value;
      && 1 <= minimum <= expanded
      && expanded * Pow2(q) <= 416
      && Pow2(k) <= Eighth(minimum) <= Eighth(expanded)
  {
    hide RingCounts, Enough, Larger, Eighth;
    PowersOfTwo();
    if q == 5 {
      RingsFor27();
      RingCountsBelow(k, 27, 13);
    } else {
      RingsFor31();
      RingCountsBelow(k, 31, 18);
      Pow2Grows(q, 4);
      var (minimum, expanded) := RingCounts(k).value;
      hide Pow2;
      MulMonotone(expanded, 18, Pow2(q));
    }
  }

  lemma {:induction false} NoneEnoughBefore(k: nat, m: nat)
    ensures LeastEnough(k, m).Some? ==> LeastEnough(k, m).value >= m && Enough(k, LeastEnough(k, m).value)
    ensures LeastEnough(k, m).Some? ==> forall i: nat :: m <= i < LeastEnough(k, m).value ==> !Enough(k, i)
    decreases MOST_RINGS + 1 - m
  {
    hide Enough;
    if m <= MOST_RINGS && !Enough(k, m) {
      NoneEnoughBefore(k, m + 1);
    }
  }

  lemma {:induction false} NoneLargerBefore(k: nat, m: nat)
    ensures LeastLarger(k, m).Some? ==> LeastLarger(k, m).value >= m && Larger(k, LeastLarger(k, m).value)
    ensures LeastLarger(k, m).Some? ==> forall i: nat :: m <= i < LeastLarger(k, m).value ==> !Larger(k, i)
    decreases MOST_RINGS + 1 - m
  {
    hide Larger;
    if m <= MOST_RINGS && !Larger(k, m) {
      NoneLargerBefore(k, m + 1);
    }
  }

  /**
   * The minimum is the least M whose eighth power is at least 2^K. The expanded count is 1.25 times the eighth root of
   * 2^K, rounded with halves up, unless the minimum is more: the powers compare four times the count plus or less two
   * with five times the root.
   */
  lemma RingCountsAre(k: nat)
    requires RingCounts(k).Some?
    ensures var (minimum, expanded) := RingCounts(k).value;
      && minimum >= 1 && Eighth(minimum) >= Pow2(k)
      && (forall m: nat :: 1 <= m < minimum ==> Eighth(m) < Pow2(k))
      && expanded >= minimum
      && Eighth(5) * Pow2(k) < Eighth(4 * expanded + 2)
      && (expanded > minimum ==> Eighth(4 * expanded - 2) <= Eighth(5) * Pow2(k))
  {
    hide Eighth, Pow2;
    NoneEnoughBefore(k, 1);
    NoneLargerBefore(k, 1);
    var (minimum, expanded) := RingCounts(k).value;
    assert Enough(k, minimum);
    forall m: nat | 1 <= m < minimum ensures Eighth(m) < Pow2(k) {
      assert !Enough(k, m);
    }
    var larger := LeastLarger(k, 1).value;
    assert Larger(k, larger);
    EighthGrows(4 * larger + 2, 4 * expanded + 2);
    if expanded > minimum {
      if expanded == 1 {
        assert false;
      }
      assert !Larger(k, expanded - 1);
      assert 4 * expanded - 2 == 4 * (expanded - 1) + 2;
    }
  }

  /** A framing is made for exactly the rates of table 8, and every one of them can be mapped. */
  lemma NewIsOk(rate: SymbolRate, bitRate: nat, expanded: bool)
    ensures New(rate, bitRate, expanded).Some? <==> Allowed(rate, bitRate)
    ensures Allowed(rate, bitRate) ==> FramingOk(New(rate, bitRate, expanded).value)
  {
    hide Allowed, FrameBits, ShellAndRest, RingCounts, Eighth, Pow2;
    if Allowed(rate, bitRate) {
      FrameBitsAre(rate, bitRate);
      var (n, b, r) := FrameBits(rate, bitRate);
      var (k, q) := ShellAndRest(b);
      if b > 12 {
        ShellAndRestAre(b);
      } else {
        ShellOfFew(b);
      }
      RingsFit(k, q);
      RingsMonotone(k, q);
    }
  }

  lemma ShellOfFew(b: nat)
    requires b <= 12
    ensures ShellAndRest(b) == (0, 0)
  {
  }

  lemma RingsMonotone(k: nat, q: nat)
    requires RingCounts(k).Some?
    requires var (minimum, expanded) := RingCounts(k).value; minimum <= expanded && expanded * Pow2(q) <= 416
    ensures RingCounts(k).value.0 * Pow2(q) <= 416
  {
    hide RingCounts;
    MulMonotone(RingCounts(k).value.0, RingCounts(k).value.1, Pow2(q));
  }

  // High and low mapping frames.

  /** High where adding r again passes a multiple of P, which happens r times in P frames (section 8.2). */
  predicate High(f: Framing, frame: nat)
    requires f.p > 0
  {
    (frame + 1) * f.r / f.p > frame * f.r / f.p
  }

  /** The bits of one mapping frame, which over a data frame add up to its share of the rate (`DataFrameBits`). */
  function BitsIn(f: Framing, frame: nat): int
    requires f.p > 0
  {
    f.b - if High(f, frame % f.p) then 0 else 1
  }

  function BitsBefore(f: Framing, frame: nat): int
    requires f.p > 0
  {
    if frame == 0 then 0 else BitsBefore(f, frame - 1) + BitsIn(f, frame - 1)
  }

  lemma HighStep(f: Framing, frame: nat)
    requires FramingOk(f)
    ensures var d := (frame + 1) * f.r / f.p - frame * f.r / f.p;
      d == if High(f, frame) then 1 else 0
  {
    var x := frame * f.r;
    assert (frame + 1) * f.r == x + f.r;
    DivStep(x, f.r, f.p);
  }

  lemma DivStep(x: nat, r: nat, p: nat)
    requires 0 < p && r <= p
    ensures x / p <= (x + r) / p <= x / p + 1
  {
    AddMultiple(x, 1, p);
    DivGrows(x, x + r, p);
    DivGrows(x + r, x + 1 * p, p);
  }

  lemma DivGrows(x: nat, y: nat, p: nat)
    requires p > 0 && x <= y
    ensures x / p <= y / p
  {
    DivModDef(x, p);
    DivModDef(y, p);
    QuotientAtMost(x / p, y / p, x % p, y % p, p);
  }

  lemma QuotientAtMost(a: nat, b: nat, x: nat, y: nat, p: nat)
    requires a * p + x <= b * p + y && y < p
    ensures a <= b
  {
    if a > b {
      MulDistributes(b, 1, p);
      MulMonotone(b + 1, a, p);
      assert false;
    }
  }

  lemma OneMore(n: nat, c: int)
    ensures (n + 1) * c == n * c + c
  {
  }

  lemma {:induction false} BitsBeforeIs(f: Framing, frame: nat)
    requires FramingOk(f) && frame <= f.p
    ensures BitsBefore(f, frame) == frame * (f.b - 1) + frame * f.r / f.p
  {
    hide High, FramingOk;
    PositiveFrames(f);
    if frame > 0 {
      var n := frame - 1;
      BitsBeforeIs(f, n);
      HighStep(f, n);
      assert n % f.p == n by {
        DivMod(n, 0, n, f.p);
      }
      OneMore(n, f.b - 1);
    } else {
      assert 0 * f.r / f.p == 0;
    }
  }

  /** The mapping frames of a data frame carry exactly its bits. */
  lemma DataFrameBits(rate: SymbolRate, bitRate: nat, expanded: bool)
    requires Allowed(rate, bitRate)
    ensures var f := New(rate, bitRate, expanded);
      f.Some? && f.value.p > 0 && 100 * f.value.j * BitsBefore(f.value, f.value.p) == 28 * bitRate
  {
    hide Allowed, FrameBits, FramingOk, BitsBefore, ShellAndRest, RingCounts, Pow2;
    NewIsOk(rate, bitRate, expanded);
    FrameBitsAre(rate, bitRate);
    var f := New(rate, bitRate, expanded).value;
    PositiveFrames(f);
    BitsBeforeIs(f, f.p);
    assert f.p * f.r / f.p == f.r by {
      DivMod(f.p * f.r, f.r, 0, f.p);
    }
  }

  lemma PositiveFrames(f: Framing)
    requires FramingOk(f)
    ensures f.p > 0
  {
  }

  /** 2 or 4, by the size of the constellation (section 9.6.2). */
  function PrecoderModulo(f: Framing): (w: int)
    ensures w == 2 || w == 4
  {
    if f.b < 56 then 2 else 4
  }

  /** No mapping frame is without its eight I bits. */
  lemma FewestBits(f: Framing, frame: nat)
    requires FramingOk(f)
    ensures BitsIn(f, frame) >= 8
  {
    var n := frame % f.p;
    if f.r == f.p {
      assert n * f.r / f.p == n by {
        DivMod(n * f.r, n, 0, f.p);
      }
      assert (n + 1) * f.r / f.p == n + 1 by {
        DivMod((n + 1) * f.r, n + 1, 0, f.p);
      }
    }
  }
}
