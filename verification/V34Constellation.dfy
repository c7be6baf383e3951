/** The points of V.34 in the order their labels are given, and the label of each (section 9.1, figure 5). */
module V34Constellation {
  import opened Prelude

  /** A point on a grid of integers. */
  datatype Point = Point(re: int, im: int)

  function Plus(a: Point, b: Point): Point {
    Point(a.re + b.re, a.im + b.im)
  }

  function Minus(a: Point, b: Point): Point {
    Point(a.re - b.re, a.im - b.im)
  }

  /** As many labels as figure 5 gives. */
  const QUARTER := 416

  // The quarter points in order.

  function Energy(p: Point): int {
    p.re * p.re + p.im * p.im
  }

  /** By energy, and from the top down where that is the same. */
  predicate Before(a: Point, b: Point) {
    Energy(a) < Energy(b) || (Energy(a) == Energy(b) && a.im > b.im)
  }

  function Insert(p: Point, points: seq<Point>): seq<Point> {
    if points != [] && Before(points[0], p) then [points[0]] + Insert(p, points[1..])
    else [p] + points
  }

  function Sort(points: seq<Point>): seq<Point> {
    if points == [] then [] else Insert(points[0], Sort(points[1..]))
  }

  /** Every fourth coordinate from -47 to 49. */
  function Grid(): (points: seq<Point>)
    ensures |points| == 625
  {
    seq(625, i => Point(4 * (i / 25) - 47, 4 * (i % 25) - 47))
  }

  predicate OnGrid(p: Point) {
    -47 <= p.re <= 49 && -47 <= p.im <= 49 && p.re % 4 == 1 && p.im % 4 == 1
  }

  lemma GridAt(i: nat)
    requires i < 625
    ensures OnGrid(Grid()[i])
  {
    assert Grid()[i] == Point(4 * (i / 25) - 47, 4 * (i % 25) - 47);
    hide Grid;
    var column, row := i / 25, i % 25;
    assert column <= 24 && row <= 24;
    assert (4 * column - 47) % 4 == 1 && (4 * row - 47) % 4 == 1;
  }

  lemma GridHas(p: Point)
    requires OnGrid(p)
    ensures p in Grid()
  {
    var column, row := (p.re + 47) / 4, (p.im + 47) / 4;
    assert p == Point(4 * column - 47, 4 * row - 47);
    var i := 25 * column + row;
    assert i / 25 == column && i % 25 == row;
    assert Grid()[i] == p;
  }

  lemma ZeroProduct(a: int, b: int)
    requires a * b == 0
    ensures a == 0 || b == 0
  {
  }

  lemma SquaresDiffer(x: int, y: int)
    requires x % 4 == 1 && y % 4 == 1 && x * x == y * y
    ensures x == y
  {
    ZeroProduct(x - y, x + y);
  }

  /** No two points of the grid come in the same place. */
  lemma BeforeIsTotal(a: Point, b: Point)
    requires OnGrid(a) && OnGrid(b) && a != b
    ensures Before(a, b) || Before(b, a)
  {
    if Energy(a) == Energy(b) && a.im == b.im {
      SquaresDiffer(a.re, b.re);
    }
  }

  ghost predicate Ordered(points: seq<Point>) {
    forall i, j :: 0 <= i < j < |points| ==> Before(points[i], points[j])
  }

  ghost predicate AllOnGrid(points: seq<Point>) {
    forall p :: p in points ==> OnGrid(p)
  }

  lemma {:induction false} InsertOrders(p: Point, points: seq<Point>)
    requires Ordered(points) && AllOnGrid(points) && OnGrid(p) && p !in points
    ensures Ordered(Insert(p, points))
    ensures forall q :: q in Insert(p, points) <==> q == p || q in points
    ensures |Insert(p, points)| == |points| + 1
    decreases |points|
  {
    hide OnGrid, Energy;
    if points != [] {
      var first, rest := points[0], points[1..];
      BeforeIsTotal(first, p);
      if Before(first, p) {
        InsertOrders(p, rest);
        var inserted := Insert(p, rest);
        assert points == [first] + rest;
        forall j | 0 < j < |[first] + inserted| ensures Before(first, ([first] + inserted)[j]) {
          assert inserted[j - 1] in inserted;
          if inserted[j - 1] != p {
            var k :| 0 <= k < |rest| && rest[k] == inserted[j - 1];
            assert points[k + 1] == rest[k];
          }
        }
      } else {
        forall j | 0 < j < |[p] + points| ensures Before(p, ([p] + points)[j]) {
          if j > 1 {
            BeforeChains(p, first, points[j - 1]);
          }
        }
      }
    }
  }

  lemma BeforeChains(a: Point, b: Point, c: Point)
    requires Before(a, b) && Before(b, c)
    ensures Before(a, c)
  {
  }

  ghost predicate Distinct(points: seq<Point>) {
    forall i, j :: 0 <= i < j < |points| ==> points[i] != points[j]
  }

  lemma {:induction false} SortOrders(points: seq<Point>)
    requires Distinct(points) && AllOnGrid(points)
    ensures Ordered(Sort(points)) && |Sort(points)| == |points|
    ensures forall q :: q in Sort(points) <==> q in points
    decreases |points|
  {
    hide OnGrid, Before;
    if points != [] {
      assert points == [points[0]] + points[1..];
      SortOrders(points[1..]);
      InsertOrders(points[0], Sort(points[1..]));
    }
  }

  function Sorted(): (points: seq<Point>)
    ensures |points| == 625 && Ordered(points)
    ensures forall p :: p in points <==> OnGrid(p)
  {
    hide Sort, Ordered, Before, OnGrid;
    SortedGrid();
    Sort(Grid())
  }

  lemma GridDiffers()
    ensures Distinct(Grid())
  {
  }

  lemma SortedGrid()
    ensures |Sort(Grid())| == 625 && Ordered(Sort(Grid()))
    ensures forall p :: p in Sort(Grid()) <==> OnGrid(p)
  {
    hide Sort, Ordered, Before, OnGrid;
    forall p ensures p in Grid() <==> OnGrid(p) {
      if OnGrid(p) {
        GridHas(p);
      } else if p in Grid() {
        var i :| 0 <= i < 625 && Grid()[i] == p;
        GridAt(i);
      }
    }
    GridDiffers();
    SortOrders(Grid());
  }

  /** The point with a label, one congruent to 1 modulo 4 in each coordinate. */
  function LabelPoint(tag: nat): (p: Point)
    requires tag < QUARTER
    ensures OnGrid(p)
  {
    hide Ordered, OnGrid;
    assert Sorted()[tag] in Sorted();
    Sorted()[tag]
  }

  lemma LabelsOrdered(a: nat, b: nat)
    requires a < b < QUARTER
    ensures Before(LabelPoint(a), LabelPoint(b))
  {
    hide Before;
  }

  lemma LabelAt(i: nat, p: Point)
    requires i < QUARTER && Sorted()[i] == p
    ensures LabelPoint(i) == p
  {
  }

  /** Labels go by increasing energy, and whatever has none comes after all that have. */
  lemma LabelsAreLeast(p: Point, tag: nat)
    requires OnGrid(p) && tag < QUARTER
    requires forall other: nat :: other < QUARTER ==> LabelPoint(other) != p
    ensures Before(LabelPoint(tag), p)
  {
    hide Before, OnGrid;
    var i :| 0 <= i < 625 && Sorted()[i] == p;
    if i < QUARTER {
      LabelAt(i, p);
      assert false;
    }
  }

  lemma LabelsDiffer(a: nat, b: nat)
    requires a < QUARTER && b < QUARTER && LabelPoint(a) == LabelPoint(b)
    ensures a == b
  {
    if a < b {
      LabelsOrdered(a, b);
    } else if b < a {
      LabelsOrdered(b, a);
    }
  }

  // Turning.

  function Turned(p: Point): Point {
    Point(p.im, -p.re)
  }

  function Turns(p: Point, n: nat): Point {
    if n == 0 then p else Turned(Turns(p, n - 1))
  }

  /** As many quarter turns as are left of `turns` after whole ones. */
  function Rotate(p: Point, turns: nat): Point {
    Turns(p, turns % 4)
  }

  lemma TurnsAre(p: Point)
    ensures Turns(p, 0) == p
    ensures Turns(p, 1) == Point(p.im, -p.re)
    ensures Turns(p, 2) == Point(-p.re, -p.im)
    ensures Turns(p, 3) == Point(-p.im, p.re)
  {
  }

  /** Where `p` is among the first labels. */
  function Find(p: Point, labels: nat): Option<nat>
    requires labels <= QUARTER
  {
    if labels == 0 then None
    else if LabelPoint(labels - 1) == p then Some(labels - 1)
    else Find(p, labels - 1)
  }

  lemma {:induction false} Finds(p: Point, labels: nat)
    requires labels <= QUARTER
    ensures match Find(p, labels)
      case None => forall l: nat :: l < labels ==> LabelPoint(l) != p
      case Some(tag) => tag < labels && LabelPoint(tag) == p
  {
    hide LabelPoint;
    if labels > 0 {
      Finds(p, labels - 1);
    }
  }

  /** The first of `turns` to 3 that takes some label to `p`, and that label. */
  function LabelFrom(p: Point, turns: nat): Option<(nat, nat)>
    decreases 4 - turns
  {
    if turns >= 4 then None
    else
      var found := Find(Rotate(p, (4 - turns) % 4), QUARTER);
      if found.Some? then Some((found.value, turns)) else LabelFrom(p, turns + 1)
  }

  function Label(p: Point): Option<(nat, nat)> {
    LabelFrom(p, 0)
  }

  predicate OneModFour(p: Point) {
    p.re % 4 == 1 && p.im % 4 == 1
  }

  lemma RotateBack(p: Point, turns: nat, back: nat)
    requires OneModFour(p) && turns < 4 && back < 4
    ensures var q := Rotate(Rotate(p, turns), (4 - back) % 4);
      if back == turns then q == p else !OneModFour(q)
  {
    hide Turns;
    TurnsAre(p);
    TurnsAre(Rotate(p, turns));
  }

  lemma FindsLabel(tag: nat)
    requires tag < QUARTER
    ensures Find(LabelPoint(tag), QUARTER) == Some(tag)
  {
    hide Find, LabelPoint;
    Finds(LabelPoint(tag), QUARTER);
    var found := Find(LabelPoint(tag), QUARTER);
    if found.Some? {
      LabelsDiffer(found.value, tag);
    }
  }

  lemma FindsNothing(q: Point)
    requires !OneModFour(q)
    ensures Find(q, QUARTER) == None
  {
    hide Find;
    Finds(q, QUARTER);
  }

  lemma LabelIsOnGrid(tag: nat)
    requires tag < QUARTER
    ensures OneModFour(LabelPoint(tag))
  {
  }

  lemma {:induction false} LabelFromInverts(tag: nat, turns: nat, from: nat)
    requires tag < QUARTER && from <= turns < 4
    ensures LabelFrom(Rotate(LabelPoint(tag), turns), from) == Some((tag, turns))
    decreases turns - from
  {
    hide Find, Rotate, LabelPoint, OneModFour;
    var p := LabelPoint(tag);
    LabelIsOnGrid(tag);
    RotateBack(p, turns, from);
    if from == turns {
      FindsLabel(tag);
    } else {
      FindsNothing(Rotate(Rotate(p, turns), (4 - from) % 4));
      LabelFromInverts(tag, turns, from + 1);
    }
  }

  /** All 1664 points have one label and one turn each. */
  lemma LabelInverts(tag: nat, turns: nat)
    requires tag < QUARTER
    ensures Label(Rotate(LabelPoint(tag), turns)) == Some((tag, turns % 4))
  {
    hide LabelFrom, LabelPoint;
    LabelFromInverts(tag, turns % 4, 0);
  }

  lemma UnRotate(p: Point, turns: nat)
    requires turns < 4
    ensures Rotate(Rotate(p, (4 - turns) % 4), turns) == p
  {
    hide Turns;
    TurnsAre(p);
    TurnsAre(Rotate(p, (4 - turns) % 4));
  }

  lemma RotateSame(p: Point, turns: nat)
    requires turns < 4
    ensures Rotate(Rotate(p, turns), (4 - turns) % 4) == p
  {
    hide Turns;
    TurnsAre(p);
    TurnsAre(Rotate(p, turns));
  }

  lemma {:induction false} LabelFromIs(p: Point, from: nat)
    ensures match LabelFrom(p, from)
      case None => forall l: nat, t: nat :: l < QUARTER && from <= t < 4 ==> Rotate(LabelPoint(l), t) != p
      case Some((tag, turns)) => tag < QUARTER && from <= turns < 4 && Rotate(LabelPoint(tag), turns) == p
    decreases 4 - from
  {
    hide Find, Rotate, LabelPoint;
    if from < 4 {
      var q := Rotate(p, (4 - from) % 4);
      Finds(q, QUARTER);
      UnRotate(p, from);
      LabelFromIs(p, from + 1);
      if LabelFrom(p, from) == None {
        forall l: nat, t: nat | l < QUARTER && from <= t < 4 ensures Rotate(LabelPoint(l), t) != p {
          if t == from {
            RotateSame(LabelPoint(l), t);
          }
        }
      }
    }
  }

  /** A label is given exactly to what some label and turn give. */
  lemma LabelIs(p: Point)
    ensures match Label(p)
      case None => forall l: nat, t: nat :: l < QUARTER && t < 4 ==> Rotate(LabelPoint(l), t) != p
      case Some((tag, turns)) => tag < QUARTER && turns < 4 && Rotate(LabelPoint(tag), turns) == p
  {
    hide LabelFrom;
    LabelFromIs(p, 0);
  }
}
