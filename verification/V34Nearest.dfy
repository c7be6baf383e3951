/** The nearest point of a subset of the odd grid, in exact arithmetic (figure 9 of V.34). */
module V34Nearest {
  import opened Prelude
  import opened V34Constellation
  import opened V34Trellis

  datatype Complex = Complex(re: real, im: real)

  function Square(x: real): real {
    x * x
  }

  function Distance(z: Complex, p: Point): real {
    Square(z.re - p.re as real) + Square(z.im - p.im as real)
  }

  /** To the nearest whole number, halves away from 0. */
  function Round(x: real): int {
    if x >= 0.0 then (x + 0.5).Floor else -((0.5 - x).Floor)
  }

  /** With 0 taken for positive. */
  function Signum(x: real): int {
    if x < 0.0 then -1 else 1
  }

  /** One point of each subset; the others are multiples of four away whose sum is even (`SubsetCell`). */
  const REPRESENTATIVES: seq<Point> := [
    Point(1, 1),
    Point(1, -1),
    Point(-1, -1),
    Point(-1, 1),
    Point(-3, 1),
    Point(1, 3),
    Point(3, -1),
    Point(-1, -3)]

  /** The whole numbers with an even sum nearest to `dx` and `dy`: where that sum is odd, the worse one moves. */
  function Cell(dx: real, dy: real): (int, int) {
    var i, j := Round(dx), Round(dy);
    if (i + j) % 2 == 0 then (i, j)
    else if Abs(dx - i as real) > Abs(dy - j as real) then (i + Signum(dx - i as real), j)
    else (i, j + Signum(dy - j as real))
  }

  function CellPoint(base: Point, i: int, j: int): Point {
    Point(base.re + 4 * i, base.im + 4 * j)
  }

  function Nearest(z: Complex, subset: Subset): Point {
    var base := REPRESENTATIVES[subset];
    var (i, j) := Cell((z.re - base.re as real) / 4.0, (z.im - base.im as real) / 4.0);
    CellPoint(base, i, j)
  }

  // Which points a subset has.

  lemma CellSubset(subset: Subset, i: int, j: int)
    requires (i + j) % 2 == 0
    ensures SubsetOf(CellPoint(REPRESENTATIVES[subset], i, j)) == subset
    ensures OnOddGrid(CellPoint(REPRESENTATIVES[subset], i, j))
  {
    var base := REPRESENTATIVES[subset];
    Eighth(base.re, i);
    Eighth(base.im, j);
  }

  lemma Eighth(v: int, i: int)
    ensures (v + 4 * i) % 8 == if i % 2 == 0 then v % 8 else (v + 4) % 8
    ensures v % 2 == 1 ==> (v + 4 * i) % 2 == 1
  {
    var k := i / 2;
    if i % 2 == 0 {
      AddEights(v, k);
      assert i == 2 * k;
    } else {
      AddEights(v + 4, k);
      assert i == 2 * k + 1;
    }
    AddTwos(v, 2 * i);
  }

  lemma AddEights(v: int, k: int)
    ensures (v + 8 * k) % 8 == v % 8
  {
  }

  lemma SameSubset(p: Point, subset: Subset)
    requires OnOddGrid(p) && SubsetOf(p) == subset
    ensures var base := REPRESENTATIVES[subset];
      (p.re % 8 == base.re % 8 && p.im % 8 == base.im % 8)
      || (p.re % 8 == (base.re + 4) % 8 && p.im % 8 == (base.im + 4) % 8)
  {
    var k, re := OddCell(p.re);
    var l, im := OddCell(p.im);
    CellOf(p.re, re);
    CellOf(p.im, im);
    CellIs(re, im);
  }

  lemma CellIs(re: int, im: int)
    requires 0 <= re < 8 && 0 <= im < 8 && re % 2 == 1 && im % 2 == 1
    ensures var base := REPRESENTATIVES[LABELS[Row(im)][Column(re)]];
      (re == base.re % 8 && im == base.im % 8) || (re == (base.re + 4) % 8 && im == (base.im + 4) % 8)
  {
  }

  lemma SubsetCell(p: Point, subset: Subset) returns (i: int, j: int)
    requires OnOddGrid(p) && SubsetOf(p) == subset
    ensures p == CellPoint(REPRESENTATIVES[subset], i, j) && (i + j) % 2 == 0
  {
    hide SubsetOf;
    var base := REPRESENTATIVES[subset];
    SameSubset(p, subset);
    i, j := CellSteps(p.re, base.re, p.im, base.im);
  }

  lemma CellSteps(re: int, baseRe: int, im: int, baseIm: int) returns (i: int, j: int)
    requires (re % 8 == baseRe % 8 && im % 8 == baseIm % 8)
      || (re % 8 == (baseRe + 4) % 8 && im % 8 == (baseIm + 4) % 8)
    ensures re == baseRe + 4 * i && im == baseIm + 4 * j && (i + j) % 2 == 0
  {
    if re % 8 == baseRe % 8 && im % 8 == baseIm % 8 {
      i, j := 2 * EightSteps(re, baseRe), 2 * EightSteps(im, baseIm);
    } else {
      i, j := 2 * EightSteps(re, baseRe + 4) + 1, 2 * EightSteps(im, baseIm + 4) + 1;
    }
  }

  function EightSteps(v: int, base: int): (k: int)
    requires v % 8 == base % 8
    ensures v == base + 8 * k
  {
    v / 8 - base / 8
  }

  // Why no other is nearer.

  lemma RoundIsNear(x: real)
    ensures Abs(x - Round(x) as real) <= 0.5
  {
  }

  lemma SquareGrows(a: real, b: real)
    requires 0.0 <= a <= b
    ensures Square(a) <= Square(b)
  {
    assert b * b - a * a == (b - a) * (b + a);
  }

  lemma SquareOfAbs(x: real)
    ensures Square(Abs(x)) == Square(x)
  {
  }

  /** Off the nearest whole number the best is the next one on the side of `x`. */
  lemma NextBest(x: real, i: int, a: int)
    requires Abs(x - i as real) <= 0.5
    ensures Square(x - i as real) <= Square(x - a as real)
    ensures a != i ==> Square(1.0 - Abs(x - i as real)) <= Square(x - a as real)
  {
    hide Square;
    var e := Abs(x - i as real);
    SquareOfAbs(x - a as real);
    SquareOfAbs(x - i as real);
    if a != i {
      assert 1.0 - e <= Abs(x - a as real);
      SquareGrows(1.0 - e, Abs(x - a as real));
      SquareGrows(e, Abs(x - a as real));
    }
  }

  lemma NextIs(x: real, i: int)
    requires Abs(x - i as real) <= 0.5
    ensures Square(x - (i + Signum(x - i as real)) as real) == Square(1.0 - Abs(x - i as real))
  {
    hide Square;
    SquareOfAbs(x - (i + Signum(x - i as real)) as real);
  }

  /** It costs less to move the worse coordinate. */
  lemma MoveTheWorse(a: real, b: real)
    requires a >= b
    ensures Square(1.0 - a) + Square(b) <= Square(a) + Square(1.0 - b)
  {
    assert Square(1.0 - a) == 1.0 - 2.0 * a + Square(a);
    assert Square(1.0 - b) == 1.0 - 2.0 * b + Square(b);
  }

  lemma CellIsEven(dx: real, dy: real)
    ensures var (i, j) := Cell(dx, dy); (i + j) % 2 == 0
  {
    hide Round, Abs;
  }

  lemma CellIsBest(dx: real, dy: real, a: int, b: int)
    requires (a + b) % 2 == 0
    ensures var (i, j) := Cell(dx, dy);
      Square(dx - i as real) + Square(dy - j as real) <= Square(dx - a as real) + Square(dy - b as real)
  {
    hide Square, Round, Abs, Signum;
    var i, j := Round(dx), Round(dy);
    RoundIsNear(dx);
    RoundIsNear(dy);
    NextBest(dx, i, a);
    NextBest(dy, j, b);
    if (i + j) % 2 != 0 {
      var e, f := Abs(dx - i as real), Abs(dy - j as real);
      NextIs(dx, i);
      NextIs(dy, j);
      SquareOfAbs(dx - i as real);
      SquareOfAbs(dy - j as real);
      if e > f {
        MoveTheWorse(e, f);
      } else {
        MoveTheWorse(f, e);
      }
    }
  }

  lemma Quarters(z: real, base: int, i: int)
    ensures Square(z - (base + 4 * i) as real) == 16.0 * Square((z - base as real) / 4.0 - i as real)
  {
    var d := (z - base as real) / 4.0 - i as real;
    assert z - (base + 4 * i) as real == 4.0 * d;
    assert (4.0 * d) * (4.0 * d) == 16.0 * (d * d);
  }

  lemma DistanceIs(z: Complex, base: Point, i: int, j: int)
    ensures Distance(z, CellPoint(base, i, j))
      == 16.0 * (Square((z.re - base.re as real) / 4.0 - i as real)
        + Square((z.im - base.im as real) / 4.0 - j as real))
  {
    hide Square;
    Quarters(z.re, base.re, i);
    Quarters(z.im, base.im, j);
  }

  lemma NearestIsIn(z: Complex, subset: Subset)
    ensures OnOddGrid(Nearest(z, subset)) && SubsetOf(Nearest(z, subset)) == subset
  {
    hide Cell;
    var base := REPRESENTATIVES[subset];
    var dx, dy := (z.re - base.re as real) / 4.0, (z.im - base.im as real) / 4.0;
    CellIsEven(dx, dy);
    var (i, j) := Cell(dx, dy);
    CellSubset(subset, i, j);
  }

  /** No point of the subset, however far out, is nearer than the one found. */
  lemma NearestIsBest(z: Complex, subset: Subset, p: Point)
    requires OnOddGrid(p) && SubsetOf(p) == subset
    ensures Distance(z, Nearest(z, subset)) <= Distance(z, p)
  {
    hide Cell, Square, Distance;
    var base := REPRESENTATIVES[subset];
    var dx, dy := (z.re - base.re as real) / 4.0, (z.im - base.im as real) / 4.0;
    var a, b := SubsetCell(p, subset);
    var (i, j) := Cell(dx, dy);
    CellIsBest(dx, dy, a, b);
    DistanceIs(z, base, i, j);
    DistanceIs(z, base, a, b);
  }

  // A point less than 1 away in each coordinate.

  predicate Within(z: Complex, p: Point) {
    Abs(z.re - p.re as real) < 1.0 && Abs(z.im - p.im as real) < 1.0
  }

  lemma OddApart(p: int, q: int)
    requires p % 2 == 1 && q % 2 == 1 && p != q
    ensures p - q >= 2 || q - p >= 2
  {
  }

  lemma FarApart(z: real, p: real, q: real)
    requires Abs(z - p) < 1.0 && (p - q >= 2.0 || q - p >= 2.0)
    ensures Square(z - p) < Square(z - q)
  {
    hide Square;
    SquareOfAbs(z - p);
    SquareOfAbs(z - q);
    SquareBelowOne(Abs(z - p), Abs(z - q));
  }

  lemma NoOtherAsNear(z: real, p: int, q: int)
    requires Abs(z - p as real) < 1.0 && p % 2 == 1 && q % 2 == 1
    ensures Square(z - p as real) <= Square(z - q as real)
    ensures p != q ==> Square(z - p as real) < Square(z - q as real)
  {
    hide Square;
    if p != q {
      OddApart(p, q);
      FarApart(z, p as real, q as real);
    }
  }

  lemma SquareBelowOne(a: real, b: real)
    requires 0.0 <= a < 1.0 < b
    ensures Square(a) < Square(b)
  {
    SquareGrows(a, 1.0);
    assert b * b > b;
  }

  /** Every other point of the odd grid is farther. */
  lemma WithinIsNearest(z: Complex, p: Point, q: Point)
    requires Within(z, p) && OnOddGrid(p) && OnOddGrid(q)
    ensures Distance(z, p) <= Distance(z, q)
    ensures p != q ==> Distance(z, p) < Distance(z, q)
  {
    hide Square;
    NoOtherAsNear(z.re, p.re, q.re);
    NoOtherAsNear(z.im, p.im, q.im);
  }
}
