/** Gaussian elimination as the echo canceller solves for its taps, in exact arithmetic. */
module RidgeSolve {
  import opened Prelude

  type Row = seq<real>
  type Matrix = seq<seq<real>>

  /** The share of the mean diagonal that is added to the diagonal. */
  const RIDGE := 0.01
  const LEAST_PIVOT := 0.000000001

  function Over(a: real, b: real): real
    requires b != 0.0
  {
    a / b
  }

  predicate Square(m: Matrix, n: nat) {
    |m| == n && forall i :: 0 <= i < n ==> |m[i]| == n
  }

  function Trace(m: Matrix, n: nat): real
    requires Square(m, |m|) && n <= |m|
  {
    if n == 0 then 0.0 else Trace(m, n - 1) + m[n - 1][n - 1]
  }

  function RidgeOf(m: Matrix): real
    requires Square(m, |m|)
  {
    if m == [] then 0.0 else RIDGE * Trace(m, |m|) / |m| as real
  }

  /** The matrix with `ridge` added to its diagonal. */
  function Ridged(m: Matrix, ridge: real): (r: Matrix)
    requires Square(m, |m|)
    ensures Square(r, |m|)
  {
    seq(|m|, i requires 0 <= i < |m| => m[i][i := m[i][i] + ridge])
  }

  function Dot(row: Row, y: Row, n: nat): real
    requires n <= |row| && n <= |y|
  {
    if n == 0 then 0.0 else Dot(row, y, n - 1) + row[n - 1] * y[n - 1]
  }

  ghost predicate Solves(m: Matrix, v: Row, y: Row)
    requires Square(m, |v|)
  {
    |y| == |v| && forall i :: 0 <= i < |v| ==> Dot(m[i], y, |v|) == v[i]
  }

  /** Two systems with the same solutions. */
  ghost predicate Equivalent(m: Matrix, v: Row, m': Matrix, v': Row)
    requires Square(m, |v|) && Square(m', |v'|)
  {
    forall y :: Solves(m, v, y) <==> Solves(m', v', y)
  }

  // Elimination.

  /** `factor` times `pivot` taken away from `row`. */
  ghost predicate TakenAway(row: Row, pivot: Row, factor: real, after: Row) {
    |row| == |pivot| == |after| && forall k :: 0 <= k < |row| ==> after[k] == row[k] - factor * pivot[k]
  }

  lemma {:induction false} DotTakenAway(row: Row, pivot: Row, factor: real, after: Row, y: Row, n: nat)
    requires TakenAway(row, pivot, factor, after) && n <= |row| && n <= |y|
    ensures Dot(after, y, n) == Dot(row, y, n) - factor * Dot(pivot, y, n)
  {
    if n > 0 {
      DotTakenAway(row, pivot, factor, after, y, n - 1);
      ProductStep(row[n - 1], pivot[n - 1], factor, y[n - 1], Dot(pivot, y, n - 1));
    }
  }

  lemma ProductStep(a: real, p: real, f: real, y: real, d: real)
    ensures (a - f * p) * y - f * d == a * y - f * (d + p * y)
  {
  }

  lemma EliminationKeeps(m: Matrix, v: Row, c: nat, i: nat, factor: real, after: Row)
    requires Square(m, |v|) && c < i < |v|
    requires TakenAway(m[i], m[c], factor, after)
    ensures Square(m[i := after], |v|)
    ensures Equivalent(m, v, m[i := after], v[i := v[i] - factor * v[c]])
  {
    hide Dot;
    var m', v' := m[i := after], v[i := v[i] - factor * v[c]];
    forall y | |y| == |v| ensures Solves(m, v, y) <==> Solves(m', v', y) {
      DotTakenAway(m[i], m[c], factor, after, y, |v|);
      if Solves(m, v, y) {
        assert Dot(m[c], y, |v|) == v[c];
      }
      if Solves(m', v', y) {
        assert Dot(m'[c], y, |v|) == v'[c] && Dot(m'[i], y, |v|) == v'[i];
        forall k | 0 <= k < |v| ensures Dot(m[k], y, |v|) == v[k] {
          assert Dot(m'[k], y, |v|) == v'[k];
        }
      }
    }
  }

  lemma EquivalentChains(a: Matrix, u: Row, b: Matrix, v: Row, c: Matrix, w: Row)
    requires Square(a, |u|) && Square(b, |v|) && Square(c, |w|)
    requires Equivalent(a, u, b, v) && Equivalent(b, v, c, w)
    ensures Equivalent(a, u, c, w)
  {
    hide Solves;
  }

  /** Nothing below the diagonal in the first `columns` columns, and pivots on it. */
  ghost predicate Eliminated(m: Matrix, columns: nat)
    requires Square(m, |m|) && columns <= |m|
  {
    && (forall i, k :: 0 <= k < i < |m| && k < columns ==> m[i][k] == 0.0)
    && (forall k :: 0 <= k < columns ==> m[k][k] != 0.0)
  }

  /** Takes the pivot row away from one row below it, from the pivot's column on. */
  method EliminateRow(row: Row, pivot: Row, column: nat) returns (after: Row, factor: real)
    requires |row| == |pivot| && column < |row| && pivot[column] != 0.0
    requires forall k :: 0 <= k < column ==> row[k] == 0.0 && pivot[k] == 0.0
    ensures TakenAway(row, pivot, factor, after)
    ensures forall k :: 0 <= k <= column ==> after[k] == 0.0
  {
    factor := row[column] / pivot[column];
    assert row[column] - factor * pivot[column] == 0.0;
    after := row;
    for k := column to |row|
      invariant |after| == |row|
      invariant forall j :: 0 <= j < column ==> after[j] == 0.0 && row[j] - factor * pivot[j] == 0.0
      invariant forall j :: column <= j < k ==> after[j] == row[j] - factor * pivot[j]
      invariant forall j :: k <= j < |row| ==> after[j] == row[j]
    {
      after := after[k := after[k] - factor * pivot[k]];
    }
  }

  // Back substitution.

  /** The sum over the columns from `from` on. */
  function Known(row: Row, y: Row, from: nat): real
    requires from <= |row| == |y|
    decreases |row| - from
  {
    if from == |row| then 0.0 else row[from] * y[from] + Known(row, y, from + 1)
  }

  lemma {:induction false} DotSplits(row: Row, y: Row, n: nat)
    requires n <= |row| == |y|
    ensures Dot(row, y, |row|) == Dot(row, y, n) + Known(row, y, n)
    decreases |row| - n
  {
    if n < |row| {
      DotSplits(row, y, n + 1);
    }
  }

  lemma {:induction false} DotOfZeros(row: Row, y: Row, n: nat)
    requires n <= |row| && n <= |y|
    requires forall k :: 0 <= k < n ==> row[k] == 0.0
    ensures Dot(row, y, n) == 0.0
  {
    if n > 0 {
      DotOfZeros(row, y, n - 1);
    }
  }

  /** A row of an eliminated matrix, from its diagonal on. */
  lemma RowIs(m: Matrix, i: nat, y: Row)
    requires Square(m, |m|) && Eliminated(m, |m|) && i < |m| == |y|
    ensures Dot(m[i], y, |m|) == Mul(m[i][i], y[i]) + Known(m[i], y, i + 1)
  {
    DotOfZeros(m[i], y, i);
    DotSplits(m[i], y, i);
  }

  lemma {:induction false} KnownSame(row: Row, y: Row, z: Row, from: nat)
    requires from <= |row| == |y| == |z|
    requires forall k :: from <= k < |row| ==> y[k] == z[k]
    ensures Known(row, y, from) == Known(row, z, from)
    decreases |row| - from
  {
    if from < |row| {
      KnownSame(row, y, z, from + 1);
    }
  }

  /** The rows from `r` on hold of `x`, and of no other values from there on. */
  ghost predicate SolvedFrom(m: Matrix, v: Row, x: Row, r: nat)
    requires Square(m, |v|) && |x| == |v| && r <= |v|
  {
    && (forall i :: r <= i < |v| ==> Dot(m[i], x, |v|) == v[i])
    && (forall y :: Solves(m, v, y) ==> x[r..] == y[r..])
  }

  lemma DivisionIs(a: real, b: real, x: real)
    requires b != 0.0
    ensures x == Over(a, b) <==> Mul(b, x) == a
  {
    if b * x == a {
      assert a / b == x;
    }
  }

  lemma RowSolved(m: Matrix, v: Row, x: Row, r: nat)
    requires Square(m, |v|) && |x| == |v| && r < |v| && Eliminated(m, |v|)
    requires x[r] == Over(v[r] - Known(m[r], x, r + 1), m[r][r])
    ensures Dot(m[r], x, |v|) == v[r]
  {
    hide Mul, Over, Dot, Known;
    RowIs(m, r, x);
    DivisionIs(v[r] - Known(m[r], x, r + 1), m[r][r], x[r]);
  }

  lemma RowStays(m: Matrix, v: Row, x: Row, x': Row, i: nat)
    requires Square(m, |v|) && |x| == |x'| == |v| && i < |v| && Eliminated(m, |v|)
    requires forall k :: i <= k < |v| ==> x[k] == x'[k]
    ensures Dot(m[i], x', |v|) == Dot(m[i], x, |v|)
  {
    hide Mul, Over, Dot, Known;
    RowIs(m, i, x');
    RowIs(m, i, x);
    KnownSame(m[i], x, x', i + 1);
  }

  lemma RowIsOnly(m: Matrix, v: Row, x: Row, y: Row, r: nat)
    requires Square(m, |v|) && |x| == |y| == |v| && r < |v| && Eliminated(m, |v|)
    requires forall k :: r < k < |v| ==> x[k] == y[k]
    requires Dot(m[r], y, |v|) == v[r]
    ensures y[r] == Over(v[r] - Known(m[r], x, r + 1), m[r][r])
  {
    hide Mul, Over, Dot, Known;
    RowIs(m, r, y);
    KnownSame(m[r], x, y, r + 1);
    DivisionIs(v[r] - Known(m[r], x, r + 1), m[r][r], y[r]);
  }

  lemma TailsAgree(x: Row, y: Row, r: nat)
    requires |x| == |y| && r <= |x|
    ensures x[r..] == y[r..] <==> forall k :: r <= k < |x| ==> x[k] == y[k]
  {
    if x[r..] == y[r..] {
      forall k | r <= k < |x| ensures x[k] == y[k] {
        assert x[r..][k - r] == y[r..][k - r];
      }
    }
  }

  lemma SubstitutionIsOnly(m: Matrix, v: Row, x: Row, r: nat, x': Row, y: Row)
    requires Square(m, |v|) && |x| == |v| && r < |v| && Eliminated(m, |v|)
    requires x' == x[r := Over(v[r] - Known(m[r], x, r + 1), m[r][r])]
    requires Solves(m, v, y) && x[r + 1..] == y[r + 1..]
    ensures x'[r..] == y[r..]
  {
    hide Mul, Over, Dot, Known, Eliminated;
    TailsAgree(x, y, r + 1);
    RowIsOnly(m, v, x, y, r);
    TailsAgree(x', y, r);
  }

  lemma SubstitutionHolds(m: Matrix, v: Row, x: Row, r: nat, x': Row, i: nat)
    requires Square(m, |v|) && |x| == |v| && r <= i < |v| && Eliminated(m, |v|)
    requires i > r ==> Dot(m[i], x, |v|) == v[i]
    requires x' == x[r := Over(v[r] - Known(m[r], x, r + 1), m[r][r])]
    ensures Dot(m[i], x', |v|) == v[i]
  {
    hide Mul, Over, Dot, Known, Eliminated;
    if i == r {
      KnownSame(m[r], x, x', r + 1);
      RowSolved(m, v, x', r);
    } else {
      RowStays(m, v, x, x', i);
    }
  }

  lemma SubstitutionSolves(m: Matrix, v: Row, x: Row, r: nat, x': Row)
    requires Square(m, |v|) && |x| == |v| && r < |v| && Eliminated(m, |v|)
    requires SolvedFrom(m, v, x, r + 1)
    requires x' == x[r := Over(v[r] - Known(m[r], x, r + 1), m[r][r])]
    ensures SolvedFrom(m, v, x', r)
  {
    hide Mul, Over, Dot, Known, Eliminated, Solves, SolvedFrom;
    forall i | r <= i < |v| ensures Dot(m[i], x', |v|) == v[i] {
      if i > r {
        SolvedRow(m, v, x, r + 1, i);
      }
      SubstitutionHolds(m, v, x, r, x', i);
    }
    forall y | Solves(m, v, y) ensures |y| == |v| && x'[r..] == y[r..] {
      SolvedTail(m, v, x, r + 1, y);
      SubstitutionIsOnly(m, v, x, r, x', y);
    }
    SolvedIs(m, v, x', r);
  }

  lemma SolvedRow(m: Matrix, v: Row, x: Row, r: nat, i: nat)
    requires Square(m, |v|) && |x| == |v| && r <= i < |v| && SolvedFrom(m, v, x, r)
    ensures Dot(m[i], x, |v|) == v[i]
  {
  }

  lemma SolvedTail(m: Matrix, v: Row, x: Row, r: nat, y: Row)
    requires Square(m, |v|) && |x| == |v| && r <= |v| && SolvedFrom(m, v, x, r) && Solves(m, v, y)
    ensures |y| == |v| && x[r..] == y[r..]
  {
  }

  lemma SolvedIs(m: Matrix, v: Row, x: Row, r: nat)
    requires Square(m, |v|) && |x| == |v| && r <= |v|
    requires forall i :: r <= i < |v| ==> Dot(m[i], x, |v|) == v[i]
    requires forall y :: Solves(m, v, y) ==> |y| == |v| && x[r..] == y[r..]
    ensures SolvedFrom(m, v, x, r)
  {
  }

  // When there is no answer.

  /** The first `c` rows take `y` to 0. */
  ghost predicate Vanishes(m: Matrix, y: Row, c: nat)
    requires Square(m, |y|) && c <= |y|
  {
    forall i :: 0 <= i < c ==> Dot(m[i], y, |y|) == 0.0
  }

  /** A vector whose last coordinate that is not 0 is a 1, at `c`. */
  ghost predicate LastAt(y: Row, c: nat) {
    c < |y| && y[c] == 1.0 && forall k :: c < k < |y| ==> y[k] == 0.0
  }

  ghost predicate RowIsFar(m: Matrix, y: Row, c: nat)
    requires Square(m, |y|) && c < |y|
  {
    Vanishes(m, y, c) ==> Abs(Dot(m[c], y, |y|)) >= LEAST_PIVOT
  }

  /** No row, less any multiples of those before it, is close to nothing up to its diagonal. */
  ghost predicate Regular(m: Matrix)
    requires Square(m, |m|)
  {
    forall y: Row, c: nat :: |y| == |m| && LastAt(y, c) ==> RowIsFar(m, y, c)
  }

  /** What the rows up to any `c` make of a vector that those before take to 0. */
  ghost predicate SameRow(a: Matrix, b: Matrix, y: Row, c: nat)
    requires Square(a, |y|) && Square(b, |y|) && c < |y|
  {
    (Vanishes(a, y, c) <==> Vanishes(b, y, c)) && (Vanishes(a, y, c) ==> Dot(a[c], y, |y|) == Dot(b[c], y, |y|))
  }

  ghost predicate SameRows(a: Matrix, b: Matrix)
    requires Square(a, |a|) && Square(b, |a|)
  {
    forall y: Row, c: nat :: |y| == |a| && c < |y| ==> SameRow(a, b, y, c)
  }

  lemma EliminationKeepsRow(m: Matrix, c: nat, i: nat, factor: real, after: Row, y: Row, d: nat)
    requires Square(m, |y|) && c < i < |y| && d < |y|
    requires |after| == |m[i]| && TakenAway(m[i], m[c], factor, after)
    ensures Square(m[i := after], |y|) && SameRow(m, m[i := after], y, d)
  {
    hide Dot, TakenAway;
    var m' := m[i := after];
    DotTakenAway(m[i], m[c], factor, after, y, |y|);
    if Vanishes(m, y, d) {
      assert c < d ==> Dot(m[c], y, |y|) == 0.0;
      assert i < d ==> Dot(m[i], y, |y|) == 0.0;
      NothingTaken(factor);
    }
    if Vanishes(m', y, d) {
      assert c < d ==> Dot(m'[c], y, |y|) == 0.0;
      assert i < d ==> Dot(m'[i], y, |y|) == 0.0;
      NothingTaken(factor);
      forall k | 0 <= k < d ensures Dot(m[k], y, |y|) == 0.0 {
        assert Dot(m'[k], y, |y|) == 0.0;
      }
    }
  }

  lemma NothingTaken(factor: real)
    ensures factor * 0.0 == 0.0
  {
  }

  lemma EliminationKeepsRows(start: Matrix, m: Matrix, c: nat, i: nat, factor: real, after: Row)
    requires Square(m, |m|) && |start| == |m| && Square(start, |start|) && c < i < |m|
    requires |after| == |m[i]| && TakenAway(m[i], m[c], factor, after) && SameRows(start, m)
    ensures Square(m[i := after], |m|) && SameRows(start, m[i := after])
  {
    hide Dot, TakenAway, SameRow;
    var next := m[i := after];
    forall y: Row, d: nat | |y| == |start| && d < |y| ensures SameRow(start, next, y, d) {
      assert SameRow(start, m, y, d);
      EliminationKeepsRow(m, c, i, factor, after, y, d);
      SameRowChains(start, m, next, y, d);
    }
  }

  lemma SameRowChains(a: Matrix, b: Matrix, c: Matrix, y: Row, d: nat)
    requires Square(a, |y|) && Square(b, |y|) && Square(c, |y|) && d < |y|
    requires SameRow(a, b, y, d) && SameRow(b, c, y, d)
    ensures SameRow(a, c, y, d)
  {
    hide Dot;
  }

  lemma SameRowsStart(m: Matrix)
    requires Square(m, |m|)
    ensures SameRows(m, m)
  {
    hide Dot;
  }

  lemma {:induction false} KnownOfZeros(row: Row, y: Row, from: nat)
    requires from <= |row| == |y|
    requires forall k :: from <= k < |row| ==> y[k] == 0.0
    ensures Known(row, y, from) == 0.0
    decreases |row| - from
  {
    if from < |row| {
      KnownOfZeros(row, y, from + 1);
    }
  }

  /** The row at the last column of a vector, with nothing before its diagonal, gives its pivot. */
  lemma PivotIs(m: Matrix, y: Row, c: nat)
    requires Square(m, |y|) && LastAt(y, c)
    requires forall k :: 0 <= k < c ==> m[c][k] == 0.0
    ensures Dot(m[c], y, |y|) == m[c][c]
  {
    DotOfZeros(m[c], y, c);
    DotSplits(m[c], y, c);
    KnownOfZeros(m[c], y, c + 1);
  }

  /** A vector with a 1 at `c` that the rows before `c` take to 0, found from the bottom up. */
  lemma {:induction false} Annihilator(m: Matrix, c: nat, r: nat) returns (y: Row)
    requires Square(m, |m|) && r <= c < |m| && Eliminated(m, c)
    ensures |y| == |m| && LastAt(y, c)
    ensures forall i :: r <= i < c ==> Dot(m[i], y, |m|) == 0.0
    decreases c - r
  {
    if r == c {
      y := seq(|m|, k => if k == c then 1.0 else 0.0);
    } else {
      var z := Annihilator(m, c, r + 1);
      y := z[r := Over(0.0 - Known(m[r], z, r + 1), m[r][r])];
      hide Dot, Known, Over;
      forall i | r <= i < c ensures Dot(m[i], y, |m|) == 0.0 {
        AnnihilatedRow(m, c, r, z, y, i);
      }
    }
  }

  lemma UpperRow(m: Matrix, c: nat, i: nat, y: Row)
    requires Square(m, |m|) && i < c <= |m| == |y| && Eliminated(m, c)
    ensures Dot(m[i], y, |m|) == Mul(m[i][i], y[i]) + Known(m[i], y, i + 1)
  {
    DotOfZeros(m[i], y, i);
    DotSplits(m[i], y, i);
  }

  lemma AnnihilatedRow(m: Matrix, c: nat, r: nat, z: Row, y: Row, i: nat)
    requires Square(m, |m|) && r <= i < c < |m| == |z| && Eliminated(m, c)
    requires y == z[r := Over(0.0 - Known(m[r], z, r + 1), m[r][r])]
    requires i > r ==> Dot(m[i], z, |m|) == 0.0
    ensures Dot(m[i], y, |m|) == 0.0
  {
    hide Mul, Over, Dot, Known;
    UpperRow(m, c, i, y);
    KnownSame(m[i], z, y, i + 1);
    if i > r {
      UpperRow(m, c, i, z);
    } else {
      DivisionIs(0.0 - Known(m[r], z, r + 1), m[r][r], y[r]);
    }
  }

  lemma SmallPivot(start: Matrix, m: Matrix, c: nat)
    requires Square(start, |m|) && |start| == |m| && Square(m, |m|) && c < |m| && SameRows(start, m)
    requires Eliminated(m, c) && Abs(m[c][c]) < LEAST_PIVOT
    ensures !Regular(start)
  {
    hide Dot;
    var y := Annihilator(m, c, 0);
    PivotIs(m, y, c);
    assert Vanishes(m, y, c);
    assert SameRow(start, m, y, c);
    assert !RowIsFar(start, y, c);
  }

  lemma LargePivots(start: Matrix, m: Matrix)
    requires Square(start, |m|) && |start| == |m| && Square(m, |m|) && SameRows(start, m)
    requires Eliminated(m, |m|)
    requires forall k :: 0 <= k < |m| ==> Abs(m[k][k]) >= LEAST_PIVOT
    ensures Regular(start)
  {
    hide Dot;
    forall y: Row, c: nat | |y| == |start| && LastAt(y, c) ensures RowIsFar(start, y, c) {
      PivotIs(m, y, c);
      assert SameRow(start, m, y, c);
    }
  }

  /** The one solution of the system with the ridge added, unless a row is too nearly made up by others. */
  method Solve(matrix: Matrix, vector: Row) returns (found: Option<Row>)
    requires Square(matrix, |vector|)
    ensures RidgeOf(matrix) * |matrix| as real * 100.0 == Trace(matrix, |matrix|)
    ensures found.Some? <==> Regular(Ridged(matrix, RidgeOf(matrix)))
    ensures found.Some? ==> SolvesRidged(matrix, RidgeOf(matrix), vector, found.value)
    ensures found.Some? ==>
      var ridged := Ridged(matrix, RidgeOf(matrix));
      && Solves(ridged, vector, found.value)
      && forall y :: Solves(ridged, vector, y) ==> y == found.value
  {
    hide Dot, Solves, Equivalent, SolvedFrom, SameRows, Regular;
    RidgeIsAHundredth(matrix);
    hide RidgeOf, SolvesRidged, Trace;
    var size := |vector|;
    var m := Ridged(matrix, RidgeOf(matrix));
    var v := vector;
    ghost var start := m;
    SameSystem(m, v);
    SameRowsStart(m);
    for column := 0 to size
      invariant |v| == size && Square(m, size) && Eliminated(m, column)
      invariant Equivalent(start, vector, m, v) && SameRows(start, m)
      invariant forall k :: 0 <= k < column ==> Abs(m[k][k]) >= LEAST_PIVOT
    {
      var pivot := m[column][column];
      if Abs(pivot) < LEAST_PIVOT {
        SmallPivot(start, m, column);
        return None;
      }
      for i := column + 1 to size
        invariant |v| == size && Square(m, size) && Eliminated(m, column) && m[column][column] != 0.0
        invariant forall k :: column < k < i ==> m[k][column] == 0.0
        invariant Equivalent(start, vector, m, v) && SameRows(start, m)
        invariant forall k :: 0 <= k <= column ==> Abs(m[k][k]) >= LEAST_PIVOT
      {
        var after, factor := EliminateRow(m[i], m[column], column);
        EliminationKeeps(m, v, column, i, factor, after);
        EliminationKeepsRows(start, m, column, i, factor, after);
        EquivalentChains(start, vector, m, v, m[i := after], v[i := v[i] - factor * v[column]]);
        m, v := m[i := after], v[i := v[i] - factor * v[column]];
      }
    }
    LargePivots(start, m);
    var x := BackSubstitute(m, v);
    found := Some(x);
    OneSolution(start, vector, m, v, x);
    SolvesWithRidge(matrix, RidgeOf(matrix), vector, x);
  }

  /** The ridge times the size is a hundredth of the diagonal's sum. */
  lemma RidgeIsAHundredth(m: Matrix)
    requires Square(m, |m|)
    ensures RidgeOf(m) * |m| as real * 100.0 == Trace(m, |m|)
  {
    if m != [] {
      var t := RIDGE * Trace(m, |m|);
      hide Trace;
      DivideBack(t, |m| as real);
    }
  }

  lemma DivideBack(t: real, n: real)
    requires n != 0.0
    ensures t / n * n == t
  {
  }

  lemma {:induction false} DotUpdated(row: Row, y: Row, i: nat, v: real, n: nat)
    requires n <= |row| && n <= |y| && i < |row| && i < |y|
    ensures Dot(row[i := v], y, n) == Dot(row, y, n) + if i < n then (v - row[i]) * y[i] else 0.0
  {
    if n > 0 {
      DotUpdated(row, y, i, v, n - 1);
    }
  }

  /** On the matrix before the ridge: each equation has the ridge's share of its own unknown besides. */
  ghost predicate SolvesRidged(m: Matrix, ridge: real, v: Row, y: Row)
    requires Square(m, |v|)
  {
    |y| == |v| && forall i :: 0 <= i < |v| ==> Dot(m[i], y, |v|) + ridge * y[i] == v[i]
  }

  lemma SolvesWithRidge(m: Matrix, ridge: real, v: Row, y: Row)
    requires Square(m, |v|) && Solves(Ridged(m, ridge), v, y)
    ensures SolvesRidged(m, ridge, v, y)
  {
    hide Dot;
    forall i | 0 <= i < |v| ensures Dot(m[i], y, |v|) + ridge * y[i] == v[i] {
      DotUpdated(m[i], y, i, m[i][i] + ridge, |v|);
      assert Ridged(m, ridge)[i] == m[i][i := m[i][i] + ridge];
      assert Dot(Ridged(m, ridge)[i], y, |v|) == v[i];
    }
  }

  lemma SameSystem(m: Matrix, v: Row)
    requires Square(m, |v|)
    ensures Equivalent(m, v, m, v)
  {
  }

  lemma OneSolution(start: Matrix, vector: Row, m: Matrix, v: Row, x: Row)
    requires Square(start, |vector|) && Square(m, |v|) && |x| == |v|
    requires Equivalent(start, vector, m, v) && SolvedFrom(m, v, x, 0)
    ensures Solves(start, vector, x) && forall y :: Solves(start, vector, y) ==> y == x
  {
    hide Dot;
    assert Solves(m, v, x);
    forall y | Solves(start, vector, y) ensures y == x {
      assert Solves(m, v, y);
      assert x[0..] == y[0..];
      assert x[0..] == x && y[0..] == y;
    }
  }

  method BackSubstitute(m: Matrix, v: Row) returns (x: Row)
    requires Square(m, |v|) && Eliminated(m, |v|)
    ensures |x| == |v| && SolvedFrom(m, v, x, 0)
  {
    hide Dot, Known, Solves, Over;
    var size := |v|;
    x := seq(size, _ => 0.0);
    var row := size;
    assert SolvedFrom(m, v, x, size) by { NothingToSolve(m, v, x); }
    while row > 0
      invariant 0 <= row <= size && |x| == size
      invariant SolvedFrom(m, v, x, row)
    {
      row := row - 1;
      ghost var before := x;
      var known := Known(m[row], x, row + 1);
      x := x[row := Over(v[row] - known, m[row][row])];
      SubstitutionSolves(m, v, before, row, x);
    }
  }

  lemma NothingToSolve(m: Matrix, v: Row, x: Row)
    requires Square(m, |v|) && |x| == |v|
    ensures SolvedFrom(m, v, x, |v|)
  {
    hide Dot;
    forall y | Solves(m, v, y) ensures x[|v|..] == y[|v|..] {
    }
  }
}
