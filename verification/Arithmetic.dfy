/** Division, remainders and powers of two. */
module Arithmetic {
  import opened Prelude

  lemma MulMonotone(a: nat, b: nat, m: nat)
    requires a <= b
    ensures a * m <= b * m
  {
    assert b * m == a * m + (b - a) * m;
  }

  lemma DivModDef(x: nat, m: nat)
    requires m > 0
    ensures x == x / m * m + x % m && 0 <= x % m < m
  {
  }

  lemma DivNatural(x: nat, m: nat)
    requires m > 0
    ensures x / m >= 0
  {
    DivModDef(x, m);
  }

  lemma DivMod(x: nat, q: nat, r: nat, m: nat)
    requires x == q * m + r && r < m
    ensures x / m == q && x % m == r
  {
    DivModDef(x, m);
    if x / m < q {
      MulDistributes(x / m, 1, m);
      MulMonotone(x / m + 1, q, m);
      assert false;
    }
    if q < x / m {
      MulDistributes(q, 1, m);
      MulMonotone(q + 1, x / m, m);
      assert false;
    }
  }

  lemma MulAssociates(a: nat, b: nat, c: nat)
    ensures a * b * c == a * (b * c)
  {
  }

  lemma MulDistributes(a: nat, b: nat, c: nat)
    ensures (a + b) * c == a * c + b * c
  {
  }

  lemma AddMultiple(v: nat, a: nat, m: nat)
    requires m > 0
    ensures (v + a * m) % m == v % m && (v + a * m) / m == v / m + a
  {
    DivModDef(v, m);
    MulDistributes(v / m, a, m);
    DivMod(v + a * m, v / m + a, v % m, m);
  }

  // Bit fields of natural numbers.

  /** The low `w` bits. */
  function Low(v: nat, w: nat): nat {
    v % Pow2(w)
  }

  /** What is above the low `w` bits. */
  function High(v: nat, w: nat): nat {
    DivNatural(v, Pow2(w));
    v / Pow2(w)
  }

  /** `hi` above the `n` bits of `lo`. */
  function Join(lo: nat, n: nat, hi: nat): nat {
    lo + hi * Pow2(n)
  }

  /** Whether `v` takes at most `n` bits. */
  predicate Fits(v: nat, n: nat) {
    v < Pow2(n)
  }

  /** Taking bits from the low end of a join leaves its high part where it was. */
  lemma SplitJoin(lo: nat, n: nat, hi: nat, w: nat)
    requires w <= n
    ensures Low(Join(lo, n, hi), w) == Low(lo, w)
    ensures High(Join(lo, n, hi), w) == Join(High(lo, w), n - w, hi)
  {
    Pow2Adds(n - w, w);
    MulAssociates(hi, Pow2(n - w), Pow2(w));
    AddMultiple(lo, hi * Pow2(n - w), Pow2(w));
  }

  lemma LowFits(v: nat, w: nat)
    ensures Fits(Low(v, w), w)
    ensures Join(Low(v, w), w, High(v, w)) == v
  {
    DivModDef(v, Pow2(w));
  }

  lemma HighFits(v: nat, n: nat, w: nat)
    requires Fits(v, n) && w <= n
    ensures Fits(High(v, w), n - w)
  {
    var m, h := Pow2(w), Pow2(n - w);
    Pow2Adds(n - w, w);
    DivModDef(v, m);
    if v / m >= h {
      MulMonotone(h, v / m, m);
      assert false;
    }
  }

  lemma FitsNothing(v: nat, w: nat)
    requires Fits(v, w)
    ensures Low(v, w) == v && High(v, w) == 0
  {
    DivMod(v, 0, v, Pow2(w));
  }

  lemma JoinFits(lo: nat, n: nat, hi: nat, m: nat)
    requires Fits(lo, n) && Fits(hi, m)
    ensures Fits(Join(lo, n, hi), n + m)
  {
    Pow2Adds(m, n);
    MulMonotone(hi + 1, Pow2(m), Pow2(n));
    MulDistributes(hi, 1, Pow2(n));
  }

  lemma JoinAssociates(a: nat, m: nat, b: nat, n: nat, c: nat)
    ensures Join(Join(a, m, b), m + n, c) == Join(a, m, Join(b, n, c))
  {
    Pow2Adds(n, m);
    MulAssociates(c, Pow2(n), Pow2(m));
    MulDistributes(b, c * Pow2(n), Pow2(m));
  }

  lemma JoinZero(v: nat, n: nat)
    ensures Join(v, n, 0) == v && Join(0, 0, v) == v
    ensures Fits(v, 0) <==> v == 0
  {
  }

  lemma FitsMore(v: nat, m: nat, n: nat)
    requires Fits(v, m) && m <= n
    ensures Fits(v, n)
  {
    Pow2Grows(m, n);
  }

  lemma OctetFits(v: nat)
    ensures Low(v, 8) < 256
    ensures Fits(v, 8) <==> v < 256
  {
    assert Pow2(8) == 256;
  }

  // Bitwise operators on unsigned words.

  function BitOr(a: nat, b: nat): nat {
    if a == 0 && b == 0 then 0 else (if a % 2 == 1 || b % 2 == 1 then 1 else 0) + 2 * BitOr(a / 2, b / 2)
  }

  function BitAnd(a: nat, b: nat): nat {
    if a == 0 || b == 0 then 0 else (if a % 2 == 1 && b % 2 == 1 then 1 else 0) + 2 * BitAnd(a / 2, b / 2)
  }

  /** The bits of `a` that are not in `b`. */
  function BitClear(a: nat, b: nat): nat {
    if a == 0 then 0 else (if a % 2 == 1 && b % 2 == 0 then 1 else 0) + 2 * BitClear(a / 2, b / 2)
  }

  lemma {:induction false} OrThenClear(a: nat, b: nat)
    ensures BitAnd(a, b) == 0 ==> BitClear(BitOr(a, b), b) == a
  {
    if a != 0 || b != 0 {
      OrThenClear(a / 2, b / 2);
    }
  }

  lemma {:induction false} OrFits(a: nat, b: nat, n: nat)
    requires a < Pow2(n) && b < Pow2(n)
    ensures BitOr(a, b) < Pow2(n)
  {
    if n > 0 {
      OrFits(a / 2, b / 2, n - 1);
    }
  }
}
