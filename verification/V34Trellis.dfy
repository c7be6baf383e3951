/** Subset labels, what they feed the three convolutional encoders of V.34, and which states follow (section 9.6.3). */
module V34Trellis {
  import opened Prelude
  import opened BitField
  import opened V34Constellation

  type Subset = x: int | 0 <= x < 8

  /** A four by four cell of figure 9: rows from the top, columns from the left. */
  const LABELS: seq<seq<Subset>> := [
    [1, 6, 5, 2],
    [4, 3, 0, 7],
    [5, 2, 1, 6],
    [0, 7, 4, 3]]

  function Column(re: int): nat {
    match re % 8
    case 5 => 0
    case 7 => 1
    case 1 => 2
    case _ => 3
  }

  function Row(im: int): nat {
    match im % 8
    case 3 => 0
    case 1 => 1
    case 7 => 2
    case _ => 3
  }

  /** The label of a point by its coordinates modulo 8. */
  function SubsetOf(p: Point): Subset {
    LABELS[Row(p.im)][Column(p.re)]
  }

  predicate OnOddGrid(p: Point) {
    p.re % 2 == 1 && p.im % 2 == 1
  }

  lemma CellParity(re: int, im: int)
    requires 0 <= re < 8 && 0 <= im < 8 && re % 2 == 1 && im % 2 == 1
    ensures LABELS[Row(im)][Column(re)] % 2 == 1 <==> (re + im) % 4 == 0
  {
  }

  lemma OddCell(v: int) returns (k: int, cell: int)
    requires v % 2 == 1
    ensures v == 8 * k + cell && 0 <= cell < 8 && cell == v % 8 && cell % 2 == 1
  {
    k, cell := v / 8, v % 8;
    assert v == 2 * (4 * k) + cell;
  }

  /** The lowest bit of a label says whether the coordinates add up to a multiple of four. */
  lemma SubsetParity(p: Point)
    requires OnOddGrid(p)
    ensures SubsetOf(p) % 2 == 1 <==> (p.re + p.im) % 4 == 0
  {
    var k, re := OddCell(p.re);
    var l, im := OddCell(p.im);
    CellParity(re, im);
    CellOf(p.re, re);
    CellOf(p.im, im);
    SumModFour(re, im, k, l);
  }

  lemma CellOf(v: int, cell: int)
    requires cell == v % 8
    ensures Column(v) == Column(cell) && Row(v) == Row(cell)
  {
  }

  lemma SumModFour(re: int, im: int, k: int, l: int)
    ensures (8 * k + re + (8 * l + im)) % 4 == (re + im) % 4
  {
    var n := re + im;
    assert 8 * k + re + (8 * l + im) == n + 4 * (2 * k + 2 * l);
  }

  /** The rows of table 13 are first labels and its columns second ones. */
  const INPUTS: seq<seq<nat>> := [
    [0, 0, 1, 1, 8, 8, 9, 9],
    [3, 2, 2, 3, 11, 10, 10, 11],
    [5, 5, 4, 4, 13, 13, 12, 12],
    [6, 7, 7, 6, 14, 15, 15, 14],
    [8, 8, 9, 9, 0, 0, 1, 1],
    [11, 10, 10, 11, 3, 2, 2, 3],
    [13, 13, 12, 12, 5, 5, 4, 4],
    [14, 15, 15, 14, 6, 7, 7, 6]]

  /** The four input bits that a 4D symbol gives the encoder, Y1 least significant. */
  function Inputs(first: Subset, second: Subset): nat {
    INPUTS[first][second]
  }

  datatype Trellis = States16 | States32 | States64

  function DelayCount(t: Trellis): nat {
    match t
    case States16 => 4
    case States32 => 5
    case States64 => 6
  }

  /** Two to the number of delays. */
  function States(t: Trellis): nat {
    match t
    case States16 => 16
    case States32 => 32
    case States64 => 64
  }

  function BitAt(v: nat, n: nat): bool {
    FieldBits(v, n + 1)[n]
  }

  /** The redundant bit, which the state alone decides. */
  function Output(t: Trellis, state: nat): bool {
    BitAt(state, DelayCount(t) - 1)
  }

  function NextBits(t: Trellis, s: Bits, y: Bits, y0: bool): (bits: Bits)
    requires |s| == 6 && |y| == 4
    ensures |bits| == DelayCount(t)
  {
    var y1, y2, y3, y4 := y[0], y[1], y[2], y[3];
    match t
    case States16 => [y0, (s[0] != y2) != y0, s[1] != y2, s[2] != y1]
    case States32 => [y0, s[0] != y2, s[1] != y1, s[2] != y4, s[3] != y2]
    case States64 =>
      [((s[0] != s[1]) != y4) != (s[2] && (s[1] != y1)),
       (((s[0] != s[1]) != y3) != (y2 && s[2])) != s[3],
       (s[1] != y1) != s[2],
       s[2],
       y0,
       (s[4] != y2) != s[2]]
  }

  /** The transition of the encoder; different inputs it uses lead to different states (`NextSeparates`). */
  function Next(t: Trellis, state: nat, inputs: nat): (next: nat)
    ensures next < States(t)
  {
    assert Pow2(4) == 16 && Pow2(5) == 32 && Pow2(6) == 64;
    FieldOf(NextBits(t, FieldBits(state, 6), FieldBits(inputs, 4), Output(t, state)))
  }

  /** Whether two inputs agree in the bits that the encoder uses: 2, 3 or all 4. */
  predicate SameInputs(t: Trellis, y: Bits, y': Bits)
    requires |y| == |y'| == 4
  {
    y[0] == y'[0] && y[1] == y'[1] && (t.States16? || y[3] == y'[3]) && (t.States64? ==> y[2] == y'[2])
  }

  lemma NextBitsSeparate(t: Trellis, s: Bits, y: Bits, y': Bits, y0: bool)
    requires |s| == 6 && |y| == |y'| == 4
    ensures NextBits(t, s, y, y0) == NextBits(t, s, y', y0) <==> SameInputs(t, y, y')
  {
    var a, b := NextBits(t, s, y, y0), NextBits(t, s, y', y0);
    if a == b {
      assert forall i :: 0 <= i < |a| ==> a[i] == b[i];
      assert a[2] == b[2] && a[3] == b[3] && (t.States64? ==> a[5] == b[5]);
    }
  }

  lemma FieldSeparates(a: Bits, b: Bits)
    requires |a| == |b|
    ensures FieldOf(a) == FieldOf(b) <==> a == b
  {
    hide FieldOf, FieldBits;
    FieldBitsInvert(a);
    FieldBitsInvert(b);
  }

  /** From every state 4, 8 or 16 states can follow, one for each value of the inputs that the encoder uses. */
  lemma NextSeparates(t: Trellis, state: nat, inputs: nat, inputs': nat)
    ensures Next(t, state, inputs) == Next(t, state, inputs')
      <==> SameInputs(t, FieldBits(inputs, 4), FieldBits(inputs', 4))
  {
    hide FieldOf, FieldBits, NextBits, SameInputs;
    var s, y, y' := FieldBits(state, 6), FieldBits(inputs, 4), FieldBits(inputs', 4);
    NextBitsSeparate(t, s, y, y', Output(t, state));
    FieldSeparates(NextBits(t, s, y, Output(t, state)), NextBits(t, s, y', Output(t, state)));
  }
}
