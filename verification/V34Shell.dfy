/** The shell mapper of section 9.4 of V.34 as a bijection between the values below M^8 and eight rings below M. */
module V34Shell {
  import opened Arithmetic

  function At(g: seq<nat>, p: nat): nat {
    if p < |g| then g[p] else 0
  }

  /** Ways to make `total` of two sums, the first of them `p`. */
  function Term(g: seq<nat>, total: nat, p: nat): nat
    requires p <= total
  {
    At(g, p) * At(g, total - p)
  }

  function Products(g: seq<nat>, total: nat, n: nat): nat
    requires n <= total + 1
  {
    if n == 0 then 0 else Products(g, total, n - 1) + Term(g, total, n - 1)
  }

  function Upto(g: seq<nat>, n: nat): nat {
    if n == 0 then 0 else Upto(g, n - 1) + At(g, n - 1)
  }

  /** The product of two generating functions that are the same. */
  function Convolve(g: seq<nat>): (c: seq<nat>)
    requires g != []
    ensures |c| == 2 * |g| - 1
  {
    seq(2 * |g| - 1, (p: nat) => Products(g, p, p + 1))
  }

  /** How many pairs of rings have each sum. */
  function PairCounts(rings: nat): (g: seq<nat>)
    requires rings >= 1
    ensures |g| == 2 * rings - 1
  {
    seq(2 * rings - 1, (p: nat) requires p < 2 * rings - 1 => if p < rings then p + 1 else 2 * rings - 1 - p)
  }

  /** How many values come before each sum. */
  function Starts(g: seq<nat>): (z: seq<nat>)
    ensures |z| == |g| + 1
  {
    seq(|g| + 1, (n: nat) => Upto(g, n))
  }

  datatype Mapper = Mapper(rings: nat, g2: seq<nat>, g4: seq<nat>, z8: seq<nat>)

  function New(rings: nat): Mapper
    requires rings >= 1
  {
    var g2 := PairCounts(rings);
    var g4 := Convolve(g2);
    Mapper(rings, g2, g4, Starts(Convolve(g4)))
  }

  function Values(m: Mapper): nat
    requires m.z8 != []
  {
    m.z8[|m.z8| - 1]
  }

  /** The largest n, from `n` on, whose products before it come to no more than the value; and what remains. */
  function Largest(g: seq<nat>, total: nat, n: nat, value: nat): (nat, nat)
    requires n <= total
    requires Products(g, total, n) + value < Products(g, total, total + 1)
    decreases total - n
  {
    if value < Term(g, total, n) then (n, value)
    else Largest(g, total, n + 1, value - Term(g, total, n))
  }

  /** The last of the starts that is no more than `value`. */
  function Position(z: seq<nat>, n: nat, value: nat): (a: nat)
    requires n < |z| && z[0] <= value
    ensures a <= n && z[a] <= value
    ensures a < n ==> value < z[a + 1]
  {
    if z[n] <= value then n else Position(z, n - 1, value)
  }

  function Pair(sum: nat, low: nat, rings: nat): (int, int) {
    if sum < rings then (low, sum - low) else (sum - (rings - 1 - low), rings - 1 - low)
  }

  function Unpair(first: nat, second: nat, rings: nat): (nat, int) {
    var sum := first + second;
    (sum, if sum < rings then first else rings - 1 - second)
  }

  // Dividing and choosing.

  lemma ProductsStart(g: seq<nat>, total: nat)
    ensures Products(g, total, 0) == 0
  {
  }

  lemma {:induction false} LargestSplits(g: seq<nat>, total: nat, n: nat, value: nat)
    requires n <= total
    requires Products(g, total, n) + value < Products(g, total, total + 1)
    ensures var (k, left) := Largest(g, total, n, value);
      && n <= k <= total
      && Products(g, total, k) + left == Products(g, total, n) + value
      && left < Term(g, total, k)
    decreases total - n
  {
    hide Term;
    if value >= Term(g, total, n) {
      LargestSplits(g, total, n + 1, value - Term(g, total, n));
    }
  }

  lemma {:induction false} ProductsGrow(g: seq<nat>, total: nat, m: nat, n: nat)
    requires m <= n <= total + 1
    ensures Products(g, total, m) <= Products(g, total, n)
  {
    hide Term;
    if m < n {
      ProductsGrow(g, total, m, n - 1);
    }
  }

  lemma {:induction false} LargestFinds(g: seq<nat>, total: nat, n: nat, k: nat, left: nat)
    requires n <= k <= total && left < Term(g, total, k)
    ensures Products(g, total, n) <= Products(g, total, k)
    ensures Products(g, total, k) + left < Products(g, total, total + 1)
    ensures Largest(g, total, n, Products(g, total, k) + left - Products(g, total, n)) == (k, left)
    decreases k - n
  {
    hide Term;
    ProductsGrow(g, total, n, k);
    ProductsGrow(g, total, k + 1, total + 1);
    if n < k {
      ProductsGrow(g, total, n + 1, k);
      LargestFinds(g, total, n + 1, k, left);
    }
  }

  lemma DivBelow(x: nat, m: nat, n: nat)
    requires x < m * n
    ensures m > 0 && n > 0 && x % m < m && x / m < n
    ensures x / m * m + x % m == x
  {
    assert m > 0 && n > 0;
    DivModDef(x, m);
    QuotientBelow(x / m, x % m, m, n);
  }

  lemma QuotientBelow(q: nat, r: nat, m: nat, n: nat)
    requires q * m + r < m * n
    ensures q < n
  {
    if q >= n {
      MulMonotone(n, q, m);
      assert false;
    }
  }

  lemma JoinBelow(low: nat, high: nat, m: nat, n: nat)
    requires low < m && high < n
    ensures high * m + low < m * n
    ensures (high * m + low) % m == low && (high * m + low) / m == high
  {
    DivMod(high * m + low, high, low, m);
    MulMonotone(high + 1, n, m);
    MulDistributes(high, 1, m);
  }

  lemma ConvolveAt(g: seq<nat>, p: nat)
    requires g != []
    requires At(Convolve(g), p) > 0
    ensures At(Convolve(g), p) == Products(g, p, p + 1)
  {
  }

  lemma StartsAt(g: seq<nat>, a: nat)
    requires a < |g|
    ensures Starts(g)[a + 1] == Starts(g)[a] + g[a]
  {
  }

  // Two rings.

  lemma PairCountIs(rings: nat, sum: nat)
    requires rings >= 1
    ensures At(PairCounts(rings), sum) ==
      if sum < rings then sum + 1 else if sum < 2 * rings - 1 then 2 * rings - 1 - sum else 0
  {
  }

  lemma PairInverts(sum: nat, low: nat, rings: nat)
    requires rings >= 1 && low < At(PairCounts(rings), sum)
    ensures var (first, second) := Pair(sum, low, rings);
      && 0 <= first < rings && 0 <= second < rings
      && Unpair(first, second, rings) == (sum, low)
  {
    hide PairCounts;
    PairCountIs(rings, sum);
  }

  lemma UnpairInverts(first: nat, second: nat, rings: nat)
    requires first < rings && second < rings
    ensures var (sum, low) := Unpair(first, second, rings);
      && 0 <= low < At(PairCounts(rings), sum)
      && Pair(sum, low, rings) == (first, second)
  {
    hide PairCounts;
    PairCountIs(rings, first + second);
  }

  // A value among those with one sum: the part in the first half, and a place among the ways to make each half.

  datatype Choice = Choice(part: nat, low: nat, high: nat)

  predicate ChoiceOk(g: seq<nat>, total: nat, c: Choice) {
    c.part <= total && c.low < At(g, c.part) && c.high < At(g, total - c.part)
  }

  function Chosen(g: seq<nat>, total: nat, c: Choice): nat
    requires c.part <= total
  {
    Products(g, total, c.part) + (c.high * At(g, c.part) + c.low)
  }

  lemma TermSplits(g: seq<nat>, total: nat, part: nat, left: nat)
    requires part <= total && left < Term(g, total, part)
    ensures At(g, part) > 0
    ensures var c := Choice(part, left % At(g, part), left / At(g, part));
      && left / At(g, part) >= 0
      && ChoiceOk(g, total, c)
      && Chosen(g, total, c) == Products(g, total, part) + left
  {
    hide At, Products;
    DivBelow(left, At(g, part), At(g, total - part));
  }

  function Choose(g: seq<nat>, total: nat, value: nat): (c: Choice)
    requires g != [] && value < At(Convolve(g), total)
    ensures ChoiceOk(g, total, c) && Chosen(g, total, c) == value
  {
    hide Convolve, At, Largest, Products, Term, ChoiceOk, Chosen;
    ConvolveAt(g, total);
    ProductsStart(g, total);
    var (part, left) := Largest(g, total, 0, value);
    LargestSplits(g, total, 0, value);
    TermSplits(g, total, part, left);
    Choice(part, left % At(g, part), left / At(g, part))
  }

  lemma ChosenIsChosen(g: seq<nat>, total: nat, c: Choice)
    requires g != [] && ChoiceOk(g, total, c)
    ensures Chosen(g, total, c) < At(Convolve(g), total)
    ensures Choose(g, total, Chosen(g, total, c)) == c
  {
    hide Convolve, At, Largest, Products;
    var m, n := At(g, c.part), At(g, total - c.part);
    JoinBelow(c.low, c.high, m, n);
    ProductsStart(g, total);
    LargestFinds(g, total, 0, c.part, c.high * m + c.low);
    ConvolveReaches(g, total, c);
  }

  lemma ConvolveReaches(g: seq<nat>, total: nat, c: Choice)
    requires g != [] && ChoiceOk(g, total, c)
    ensures At(Convolve(g), total) == Products(g, total, total + 1)
  {
    assert c.part < |g| && total - c.part < |g|;
    assert Convolve(g)[total] == Products(g, total, total + 1);
  }

  // The mapper.

  predicate AllBelow(rings: nat, m: seq<nat>) {
    forall n :: 0 <= n < |m| ==> m[n] < rings
  }

  /** Two pairs of rings from a choice among those with their sum. */
  function FourRings(rings: nat, sum: nat, c: Choice): (m: seq<nat>)
    requires rings >= 1 && ChoiceOk(PairCounts(rings), sum, c)
    ensures |m| == 4 && AllBelow(rings, m)
  {
    hide PairCounts, At;
    PairInverts(c.part, c.low, rings);
    PairInverts(sum - c.part, c.high, rings);
    var (m0, m1) := Pair(c.part, c.low, rings);
    var (m2, m3) := Pair(sum - c.part, c.high, rings);
    [m0, m1, m2, m3]
  }

  function FourOf(rings: nat, m: seq<nat>): (f: (nat, Choice))
    requires |m| == 4 && AllBelow(rings, m)
    ensures rings >= 1 && ChoiceOk(PairCounts(rings), f.0, f.1)
  {
    hide PairCounts, At;
    UnpairInverts(m[0], m[1], rings);
    UnpairInverts(m[2], m[3], rings);
    var (c, e) := Unpair(m[0], m[1], rings);
    var (d, f) := Unpair(m[2], m[3], rings);
    (c + d, Choice(c, e, f))
  }

  lemma FourInverts(rings: nat, sum: nat, c: Choice)
    requires rings >= 1 && ChoiceOk(PairCounts(rings), sum, c)
    ensures FourOf(rings, FourRings(rings, sum, c)) == (sum, c)
  {
    hide PairCounts, At;
    PairInverts(c.part, c.low, rings);
    PairInverts(sum - c.part, c.high, rings);
  }

  lemma FourRingsInvert(rings: nat, m: seq<nat>)
    requires |m| == 4 && AllBelow(rings, m)
    ensures var (sum, c) := FourOf(rings, m); FourRings(rings, sum, c) == m
  {
    hide PairCounts, At;
    UnpairInverts(m[0], m[1], rings);
    UnpairInverts(m[2], m[3], rings);
  }

  predicate MapperOk(m: Mapper) {
    m.rings >= 1 && m == New(m.rings)
  }

  /** What `New` makes of M, without how. */
  lemma MapperIs(m: Mapper)
    requires MapperOk(m)
    ensures m.g2 == PairCounts(m.rings) && m.g4 == Convolve(m.g2) && m.z8 == Starts(Convolve(m.g4))
    ensures |m.z8| == 8 * m.rings - 6 && m.z8[0] == 0
    ensures m.g2 != [] && m.g4 != [] && m.rings >= 1
  {
    hide PairCounts, Convolve;
  }

  lemma ShellSplits(m: Mapper, r0: nat)
    requires MapperOk(m) && |m.z8| > 1 && m.z8[0] == 0 && r0 < Values(m)
    ensures var a := Position(m.z8, |m.z8| - 1, r0);
      m.g4 != [] && r0 - m.z8[a] < At(Convolve(m.g4), a)
  {
    hide PairCounts, Convolve, Starts;
    MapperIs(m);
    var a := Position(m.z8, |m.z8| - 1, r0);
    StartsAt(Convolve(m.g4), a);
  }

  /** Which sum of eight rings a value falls under, and its choice for the two fours. */
  function Split(m: Mapper, r0: nat): (s: (nat, Choice))
    requires MapperOk(m) && r0 < Values(m)
    ensures ChoiceOk(m.g4, s.0, s.1)
  {
    hide MapperOk, Values, Position, PairCounts, Convolve, Starts, At, Choose, Chosen, ChoiceOk;
    MapperIs(m);
    ShellSplits(m, r0);
    var a := Position(m.z8, |m.z8| - 1, r0);
    (a, Choose(m.g4, a, r0 - m.z8[a]))
  }

  lemma PartsFit(m: Mapper, a: nat, halves: Choice)
    requires MapperOk(m) && ChoiceOk(m.g4, a, halves)
    ensures m.g2 != [] && halves.part <= a
    ensures halves.low < At(Convolve(m.g2), halves.part) && halves.high < At(Convolve(m.g2), a - halves.part)
  {
    hide MapperOk, PairCounts, Convolve, At;
    MapperIs(m);
  }

  /** The eight rings of a value, each below M. */
  function Map(m: Mapper, r0: nat): (rings: seq<nat>)
    requires MapperOk(m) && r0 < Values(m)
    ensures |rings| == 8 && AllBelow(m.rings, rings)
  {
    hide MapperOk, PairCounts, Convolve, Values, At, Choose, Chosen, ChoiceOk, FourRings, Split;
    MapperIs(m);
    var (a, halves) := Split(m, r0);
    PartsFit(m, a, halves);
    var first := Choose(m.g2, halves.part, halves.low);
    var second := Choose(m.g2, a - halves.part, halves.high);
    FourRings(m.rings, halves.part, first) + FourRings(m.rings, a - halves.part, second)
  }

  /** The inverse: a value for any eight rings below M. */
  function Unmap(m: Mapper, rings: seq<nat>): nat
    requires MapperOk(m) && |rings| == 8 && AllBelow(m.rings, rings)
  {
    hide MapperOk, PairCounts, Convolve, Starts, At, FourOf;
    MapperIs(m);
    var (b, first) := FourOf(m.rings, rings[..4]);
    var (rest, second) := FourOf(m.rings, rings[4..]);
    HalvesOk(m, b, first, rest, second);
    var r2 := Chosen(m.g2, b, first);
    var r3 := Chosen(m.g2, rest, second);
    m.z8[b + rest] + Chosen(m.g4, b + rest, Choice(b, r2, r3))
  }

  lemma HalvesOk(m: Mapper, b: nat, first: Choice, rest: nat, second: Choice)
    requires MapperOk(m)
    requires ChoiceOk(PairCounts(m.rings), b, first) && ChoiceOk(PairCounts(m.rings), rest, second)
    ensures var halves := Choice(b, Chosen(m.g2, b, first), Chosen(m.g2, rest, second));
      && ChoiceOk(m.g4, b + rest, halves)
      && m.g4 != []
      && b + rest < |Convolve(m.g4)|
      && Chosen(m.g4, b + rest, halves) < At(Convolve(m.g4), b + rest)
      && b + rest + 1 < |m.z8|
  {
    hide MapperOk, PairCounts, Convolve, Starts, Chosen;
    MapperIs(m);
    ChosenIsChosen(m.g2, b, first);
    ChosenIsChosen(m.g2, rest, second);
    ChosenIsChosen(m.g4, b + rest, Choice(b, Chosen(m.g2, b, first), Chosen(m.g2, rest, second)));
  }

  /** K bits come back from the rings they chose. */
  lemma UnmapInverts(m: Mapper, r0: nat)
    requires MapperOk(m) && r0 < Values(m)
    ensures Unmap(m, Map(m, r0)) == r0
  {
    hide MapperOk, PairCounts, Convolve, Starts, At, Choose, Chosen, FourRings, FourOf;
    MapperIs(m);
    ShellSplits(m, r0);
    var a := Position(m.z8, |m.z8| - 1, r0);
    var halves := Choose(m.g4, a, r0 - m.z8[a]);
    var first := Choose(m.g2, halves.part, halves.low);
    var second := Choose(m.g2, a - halves.part, halves.high);
    FourInverts(m.rings, halves.part, first);
    FourInverts(m.rings, a - halves.part, second);
    var rings := Map(m, r0);
    assert rings[..4] == FourRings(m.rings, halves.part, first);
    assert rings[4..] == FourRings(m.rings, a - halves.part, second);
  }

  lemma {:induction false} StartsGrow(g: seq<nat>, a: nat, b: nat)
    requires a <= b <= |g|
    ensures Starts(g)[a] <= Starts(g)[b]
    decreases b - a
  {
    if a < b {
      StartsAt(g, b - 1);
      StartsGrow(g, a, b - 1);
    }
  }

  lemma {:induction false} PositionFinds(g: seq<nat>, a: nat, n: nat, value: nat)
    requires a < |g| && a <= n <= |g|
    requires Starts(g)[a] <= value < Starts(g)[a + 1] && Starts(g)[0] <= value
    ensures Position(Starts(g), n, value) == a
    decreases n
  {
    if a < n {
      StartsGrow(g, a + 1, n);
      PositionFinds(g, a, n - 1, value);
    }
  }

  /** Every eight rings are those of a value: with `UnmapInverts`, one to one and onto. */
  lemma MapInverts(m: Mapper, rings: seq<nat>)
    requires MapperOk(m) && |rings| == 8 && AllBelow(m.rings, rings)
    ensures Unmap(m, rings) < Values(m)
    ensures Map(m, Unmap(m, rings)) == rings
  {
    hide MapperOk, PairCounts, Convolve, Starts, At, Choose, Chosen, FourRings, FourOf;
    MapperIs(m);
    var (b, first) := FourOf(m.rings, rings[..4]);
    var (rest, second) := FourOf(m.rings, rings[4..]);
    HalvesOk(m, b, first, rest, second);
    var a := b + rest;
    var halves := Choice(b, Chosen(m.g2, b, first), Chosen(m.g2, rest, second));
    var left := Chosen(m.g4, a, halves);
    ReachesShell(Convolve(m.g4), a, left);
    ChosenIsChosen(m.g2, b, first);
    ChosenIsChosen(m.g2, rest, second);
    ChosenIsChosen(m.g4, a, halves);
    FourRingsInvert(m.rings, rings[..4]);
    FourRingsInvert(m.rings, rings[4..]);
    assert rings == rings[..4] + rings[4..];
  }

  lemma ReachesShell(g: seq<nat>, a: nat, left: nat)
    requires a < |g| && left < At(g, a)
    ensures var z := Starts(g);
      z[0] == 0 && z[a] + left < z[|g|] && Position(z, |g|, z[a] + left) == a
  {
    hide Starts;
    StartsAt(g, a);
    StartsGrow(g, a + 1, |g|);
    StartsGrow(g, 0, a);
    StartsFromZero(g);
    PositionFinds(g, a, |g|, Starts(g)[a] + left);
  }

  lemma StartsFromZero(g: seq<nat>)
    ensures Starts(g)[0] == 0
  {
  }

  // How many values there are.

  /** Terms with their second factor summed first. */
  function Triangle(g: seq<nat>, total: nat, n: nat): nat
    requires n <= total
  {
    if n == 0 then 0 else Triangle(g, total, n - 1) + At(g, n - 1) * Upto(g, total - (n - 1))
  }

  lemma {:induction false} TriangleGrows(g: seq<nat>, total: nat, n: nat)
    requires n <= total
    ensures Triangle(g, total + 1, n) == Triangle(g, total, n) + Products(g, total, n)
  {
    hide At;
    if n > 0 {
      TriangleGrows(g, total, n - 1);
      var i := n - 1;
      assert Upto(g, total + 1 - i) == Upto(g, total - i) + At(g, total - i);
      MulDistributes(Upto(g, total - i), At(g, total - i), At(g, i));
    }
  }

  lemma {:induction false} ConvolveUpto(g: seq<nat>, n: nat)
    requires g != [] && n <= 2 * |g| - 1
    ensures Upto(Convolve(g), n) == Triangle(g, n, n)
  {
    hide Convolve;
    if n > 0 {
      var t := n - 1;
      ConvolveUpto(g, t);
      ConvolveIs(g, t);
      TriangleGrows(g, t, t);
      hide At;
      TriangleEnds(g, t);
    }
  }

  lemma ConvolveIs(g: seq<nat>, p: nat)
    requires g != [] && p < 2 * |g| - 1
    ensures At(Convolve(g), p) == Products(g, p, p + 1)
  {
  }

  lemma TriangleEnds(g: seq<nat>, t: nat)
    ensures Triangle(g, t + 1, t + 1) == Triangle(g, t + 1, t) + Term(g, t, t)
  {
    hide At;
    assert Upto(g, 1) == Upto(g, 0) + At(g, 0);
  }

  lemma {:induction false} UptoAll(g: seq<nat>, n: nat)
    requires n >= |g|
    ensures Upto(g, n) == Upto(g, |g|)
    decreases n
  {
    if n > |g| {
      UptoAll(g, n - 1);
    }
  }

  lemma {:induction false} TriangleIsProduct(g: seq<nat>, n: nat)
    requires g != [] && n <= 2 * |g| - 1
    ensures Triangle(g, 2 * |g| - 1, n) == Upto(g, n) * Upto(g, |g|)
  {
    hide At, Upto;
    UptoSteps(g, n);
    if n > 0 {
      var i := n - 1;
      TriangleIsProduct(g, i);
      TermIs(g, i);
      MulDistributes(Upto(g, i), At(g, i), Upto(g, |g|));
    }
  }

  lemma UptoSteps(g: seq<nat>, n: nat)
    ensures Upto(g, n) == if n == 0 then 0 else Upto(g, n - 1) + At(g, n - 1)
  {
  }

  /** A term of the triangle has everything as its second factor, or nothing as its first. */
  lemma TermIs(g: seq<nat>, i: nat)
    requires g != [] && i < 2 * |g| - 1
    ensures At(g, i) * Upto(g, 2 * |g| - 1 - i) == At(g, i) * Upto(g, |g|)
  {
    hide Upto;
    if i < |g| {
      UptoAll(g, 2 * |g| - 1 - i);
    } else {
      NoTerm(Upto(g, 2 * |g| - 1 - i), Upto(g, |g|));
    }
  }

  lemma NoTerm(a: nat, b: nat)
    ensures 0 * a == 0 * b
  {
  }

  lemma ConvolveTotal(g: seq<nat>)
    requires g != []
    ensures Upto(Convolve(g), 2 * |g| - 1) == Upto(g, |g|) * Upto(g, |g|)
  {
    hide Convolve, Upto, Triangle;
    ConvolveUpto(g, 2 * |g| - 1);
    TriangleIsProduct(g, 2 * |g| - 1);
    UptoAll(g, 2 * |g| - 1);
  }

  lemma {:induction false} PairsUpto(rings: nat, n: nat)
    requires rings >= 1 && n <= 2 * rings - 1
    ensures 2 * Upto(PairCounts(rings), n) ==
      if n <= rings then n * (n + 1)
      else rings * (rings + 1) + 2 * (n - rings) * rings - (n - rings) * (n - rings + 1)
  {
    hide PairCounts;
    if n > 0 {
      PairsUpto(rings, n - 1);
      PairCountIs(rings, n - 1);
    }
  }

  function Power(m: nat, n: nat): nat {
    if n == 0 then 1 else m * Power(m, n - 1)
  }

  /** As many values as there are ways to choose eight rings. */
  lemma ValuesAre(m: Mapper)
    requires MapperOk(m)
    ensures Values(m) == Power(m.rings, 8)
  {
    hide PairCounts, Convolve, Upto, Power;
    var n := m.rings;
    PairsUpto(n, 2 * n - 1);
    assert Upto(m.g2, |m.g2|) == n * n;
    ConvolveTotal(m.g2);
    ConvolveTotal(m.g4);
    EighthPower(n);
  }

  lemma EighthPower(n: nat)
    ensures n * n * (n * n) * (n * n * (n * n)) == Power(n, 8)
  {
    assert Power(n, 1) == n by {
      assert Power(n, 0) == 1;
    }
    PowerAdds(n, 1, 1);
    PowerAdds(n, 2, 2);
    PowerAdds(n, 4, 4);
  }

  lemma {:induction false} PowerAdds(n: nat, a: nat, b: nat)
    ensures Power(n, a + b) == Power(n, a) * Power(n, b)
  {
    if a > 0 {
      PowerAdds(n, a - 1, b);
      MulAssociates(n, Power(n, a - 1), Power(n, b));
    }
  }

  // The order of the values.

  function Sum(rings: seq<nat>): nat {
    if rings == [] then 0 else rings[0] + Sum(rings[1..])
  }

  lemma {:induction false} SumAppends(a: seq<nat>, b: seq<nat>)
    ensures Sum(a + b) == Sum(a) + Sum(b)
  {
    if a == [] {
      assert a + b == b;
    } else {
      assert (a + b)[1..] == a[1..] + b;
      SumAppends(a[1..], b);
    }
  }

  lemma SumStarts(n: nat, rest: seq<nat>)
    ensures Sum([n] + rest) == n + Sum(rest)
  {
    assert ([n] + rest)[1..] == rest;
  }

  lemma SumOfFour(a: nat, b: nat, c: nat, d: nat)
    ensures Sum([a, b, c, d]) == a + b + c + d
  {
    hide Sum;
    SumStarts(a, [b, c, d]);
    SumStarts(b, [c, d]);
    SumStarts(c, [d]);
    SumStarts(d, []);
    assert [a] + [b, c, d] == [a, b, c, d] && [b] + [c, d] == [b, c, d] && [c] + [d] == [c, d] && [d] + [] == [d];
    SumOfNone();
  }

  lemma SumOfNone()
    ensures Sum([]) == 0
  {
  }

  lemma FourSum(rings: nat, sum: nat, c: Choice)
    requires rings >= 1 && ChoiceOk(PairCounts(rings), sum, c)
    ensures Sum(FourRings(rings, sum, c)) == sum
  {
    hide PairCounts, At, Sum;
    PairInverts(c.part, c.low, rings);
    PairInverts(sum - c.part, c.high, rings);
    var (m0, m1) := Pair(c.part, c.low, rings);
    var (m2, m3) := Pair(sum - c.part, c.high, rings);
    SumOfFour(m0, m1, m2, m3);
  }

  lemma MapSum(m: Mapper, r0: nat)
    requires MapperOk(m) && r0 < Values(m)
    ensures Sum(Map(m, r0)) == Split(m, r0).0
  {
    hide MapperOk, PairCounts, Convolve, Values, At, Choose, Chosen, ChoiceOk, FourRings, Split, Sum;
    MapperIs(m);
    var (a, halves) := Split(m, r0);
    PartsFit(m, a, halves);
    PartIsWithin(m.g4, a, halves);
    var first := Choose(m.g2, halves.part, halves.low);
    var second := Choose(m.g2, a - halves.part, halves.high);
    FourSum(m.rings, halves.part, first);
    FourSum(m.rings, a - halves.part, second);
    SumAppends(FourRings(m.rings, halves.part, first), FourRings(m.rings, a - halves.part, second));
  }

  lemma PartIsWithin(g: seq<nat>, total: nat, c: Choice)
    requires ChoiceOk(g, total, c)
    ensures c.part <= total
  {
  }

  lemma SplitGrows(m: Mapper, r: nat, s: nat)
    requires MapperOk(m) && r <= s < Values(m)
    ensures Split(m, r).0 <= Split(m, s).0
  {
    hide MapperOk, PairCounts, Convolve, Starts, At, Choose, Chosen;
    MapperIs(m);
    var n := |m.z8| - 1;
    var a, b := Position(m.z8, n, r), Position(m.z8, n, s);
    if b < a {
      StartsGrow(Convolve(m.g4), b + 1, a);
      assert false;
    }
  }

  /** The mapper shapes: a larger value never has a smaller sum of rings, so the fewest bits take the inner rings. */
  lemma MapGrows(m: Mapper, r: nat, s: nat)
    requires MapperOk(m) && r <= s < Values(m)
    ensures Sum(Map(m, r)) <= Sum(Map(m, s))
  {
    hide MapperOk, Values, Map, Split, Sum;
    MapSum(m, r);
    MapSum(m, s);
    SplitGrows(m, r, s);
  }
}
