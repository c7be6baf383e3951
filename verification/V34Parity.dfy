/** The convolutional codes of V.34 by their parity checks, which any run of the encoder meets from any state. */
module V34Parity {
  import opened Prelude
  import opened BitField
  import opened V34Trellis

  /** The state after the first `n` of these inputs. */
  function StateAfter(t: Trellis, state: nat, inputs: seq<nat>, n: nat): nat
    requires n <= |inputs|
  {
    if n == 0 then state else Next(t, StateAfter(t, state, inputs, n - 1), inputs[n - 1])
  }

  /** Y0 of the 4D symbol at time `n`. */
  function Y0(t: Trellis, state: nat, inputs: seq<nat>, n: nat): bool
    requires n <= |inputs|
  {
    Output(t, StateAfter(t, state, inputs, n))
  }

  /** Y1 to Y4 of the 4D symbol at time `n`. */
  function Y(inputs: seq<nat>, i: nat, n: nat): bool
    requires 1 <= i <= 4 && n < |inputs|
  {
    FieldBits(inputs[n], 4)[i - 1]
  }

  function Delays(t: Trellis, state: nat, inputs: seq<nat>, n: nat): (bits: Bits)
    requires n <= |inputs|
    ensures |bits| == 6
  {
    FieldBits(StateAfter(t, state, inputs, n), 6)
  }

  lemma {:induction false} FieldBitsAt(v: nat, m: nat, n: nat, i: nat)
    requires i < m <= n
    ensures FieldBits(v, m)[i] == FieldBits(v, n)[i]
  {
    if i > 0 {
      FieldBitsAt(v / 2, m - 1, n - 1, i - 1);
    }
  }

  /** One step of the encoder, delay by delay. */
  lemma Steps(t: Trellis, state: nat, inputs: seq<nat>, n: nat)
    requires 1 <= n <= |inputs|
    ensures Y0(t, state, inputs, n) == Delays(t, state, inputs, n)[DelayCount(t) - 1]
    ensures Y0(t, state, inputs, n - 1) == Delays(t, state, inputs, n - 1)[DelayCount(t) - 1]
    ensures Delays(t, state, inputs, n)[..DelayCount(t)]
      == NextBits(t, Delays(t, state, inputs, n - 1), FieldBits(inputs[n - 1], 4), Y0(t, state, inputs, n - 1))
  {
    hide FieldBits, FieldOf, NextBits;
    var k := DelayCount(t);
    var s := StateAfter(t, state, inputs, n - 1);
    OutputIs(t, s);
    OutputIs(t, StateAfter(t, state, inputs, n));
    var bits := NextBits(t, FieldBits(s, 6), FieldBits(inputs[n - 1], 4), Output(t, s));
    FieldBitsInvert(bits);
    forall i | 0 <= i < k ensures FieldBits(FieldOf(bits), 6)[i] == bits[i] {
      FieldBitsAt(FieldOf(bits), k, 6, i);
    }
  }

  lemma OutputIs(t: Trellis, s: nat)
    ensures Output(t, s) == FieldBits(s, 6)[DelayCount(t) - 1]
  {
    hide FieldBits;
    FieldBitsAt(s, DelayCount(t), 6, DelayCount(t) - 1);
  }

  function Delay(t: Trellis, state: nat, inputs: seq<nat>, n: nat, i: nat): bool
    requires n <= |inputs| && i < 6
  {
    Delays(t, state, inputs, n)[i]
  }

  lemma Taken<T>(s: seq<T>, k: nat)
    requires k <= |s|
    ensures forall i :: 0 <= i < k ==> s[..k][i] == s[i]
  {
  }

  lemma Steps16(state: nat, inputs: seq<nat>, n: nat)
    requires 1 <= n <= |inputs|
    ensures Y0(States16, state, inputs, n) == Delay(States16, state, inputs, n, 3)
    ensures Delay(States16, state, inputs, n, 0) == Y0(States16, state, inputs, n - 1)
    ensures Delay(States16, state, inputs, n, 1)
      == ((Delay(States16, state, inputs, n - 1, 0) != Y(inputs, 2, n - 1)) != Y0(States16, state, inputs, n - 1))
    ensures Delay(States16, state, inputs, n, 2)
      == (Delay(States16, state, inputs, n - 1, 1) != Y(inputs, 2, n - 1))
    ensures Delay(States16, state, inputs, n, 3)
      == (Delay(States16, state, inputs, n - 1, 2) != Y(inputs, 1, n - 1))
  {
    hide FieldBits, Y0, Delays;
    Steps(States16, state, inputs, n);
    Taken(Delays(States16, state, inputs, n), 4);
  }

  lemma Steps32(state: nat, inputs: seq<nat>, n: nat)
    requires 1 <= n <= |inputs|
    ensures Y0(States32, state, inputs, n) == Delay(States32, state, inputs, n, 4)
    ensures Delay(States32, state, inputs, n, 0) == Y0(States32, state, inputs, n - 1)
    ensures Delay(States32, state, inputs, n, 1)
      == (Delay(States32, state, inputs, n - 1, 0) != Y(inputs, 2, n - 1))
    ensures Delay(States32, state, inputs, n, 2)
      == (Delay(States32, state, inputs, n - 1, 1) != Y(inputs, 1, n - 1))
    ensures Delay(States32, state, inputs, n, 3)
      == (Delay(States32, state, inputs, n - 1, 2) != Y(inputs, 4, n - 1))
    ensures Delay(States32, state, inputs, n, 4)
      == (Delay(States32, state, inputs, n - 1, 3) != Y(inputs, 2, n - 1))
  {
    hide FieldBits, Y0, Delays;
    Steps(States32, state, inputs, n);
    Taken(Delays(States32, state, inputs, n), 5);
  }

  lemma Steps64(state: nat, inputs: seq<nat>, n: nat)
    requires 1 <= n <= |inputs|
    ensures Y0(States64, state, inputs, n) == Delay(States64, state, inputs, n, 5)
    ensures var s0, s1, s2 := Delay(States64, state, inputs, n - 1, 0), Delay(States64, state, inputs, n - 1, 1),
        Delay(States64, state, inputs, n - 1, 2);
      var y1, y2, y3, y4 := Y(inputs, 1, n - 1), Y(inputs, 2, n - 1), Y(inputs, 3, n - 1), Y(inputs, 4, n - 1);
      && Delay(States64, state, inputs, n, 0) == Odd(s0, s1, y4, s2 && (s1 != y1), false)
      && Delay(States64, state, inputs, n, 1) == Odd(s0, s1, y3, y2 && s2, Delay(States64, state, inputs, n - 1, 3))
      && Delay(States64, state, inputs, n, 2) == Odd(s1, y1, s2, false, false)
      && Delay(States64, state, inputs, n, 3) == s2
      && Delay(States64, state, inputs, n, 4) == Y0(States64, state, inputs, n - 1)
      && Delay(States64, state, inputs, n, 5) == Odd(Delay(States64, state, inputs, n - 1, 4), y2, s2, false, false)
  {
    hide FieldBits, Y0, Delays;
    Steps(States64, state, inputs, n);
    Taken(Delays(States64, state, inputs, n), 6);
  }

  /** Whether an odd number of these are ones. */
  predicate Odd(a: bool, b: bool, c: bool, d: bool, e: bool) {
    (((a != b) != c) != d) != e
  }

  /** The 16-state code: Y0 now is the sum of five earlier bits. */
  lemma Parity16(state: nat, inputs: seq<nat>, n: nat)
    requires 4 <= n <= |inputs|
    ensures Y0(States16, state, inputs, n) == Odd(
      Y0(States16, state, inputs, n - 4), Y0(States16, state, inputs, n - 3),
      Y(inputs, 2, n - 3), Y(inputs, 2, n - 2), Y(inputs, 1, n - 1))
  {
    hide Y, Y0, Delay;
    Steps16(state, inputs, n);
    Steps16(state, inputs, n - 1);
    Steps16(state, inputs, n - 2);
    Steps16(state, inputs, n - 3);
  }

  /** The 32-state code. */
  lemma Parity32(state: nat, inputs: seq<nat>, n: nat)
    requires 5 <= n <= |inputs|
    ensures Y0(States32, state, inputs, n) == Odd(
      Y0(States32, state, inputs, n - 5), Y(inputs, 2, n - 4), Y(inputs, 1, n - 3),
      Y(inputs, 4, n - 2), Y(inputs, 2, n - 1))
  {
    hide Y, Y0, Delay;
    Steps32(state, inputs, n);
    Steps32(state, inputs, n - 1);
    Steps32(state, inputs, n - 2);
    Steps32(state, inputs, n - 3);
    Steps32(state, inputs, n - 4);
  }

  /** What the 64-state code multiplies by: Y0 of the times before and after, with Y2. */
  function W(state: nat, inputs: seq<nat>, n: nat): bool
    requires 1 <= n < |inputs|
  {
    Odd(Y0(States64, state, inputs, n + 1), Y0(States64, state, inputs, n - 1), Y(inputs, 2, n), false, false)
  }

  lemma WIs(state: nat, inputs: seq<nat>, n: nat)
    requires 1 <= n < |inputs|
    ensures W(state, inputs, n) == Delay(States64, state, inputs, n, 2)
  {
    hide Y, Y0, Delay;
    Steps64(state, inputs, n);
    Steps64(state, inputs, n + 1);
  }

  /** The 64-state code, whose check is not linear. */
  lemma Parity64(state: nat, inputs: seq<nat>, n: nat)
    requires 3 <= n && n + 2 < |inputs|
    ensures Odd(W(state, inputs, n + 2), W(state, inputs, n + 1), Y(inputs, 1, n + 1), Y(inputs, 3, n),
        Y(inputs, 3, n - 1))
      == Odd(Y(inputs, 4, n - 1), Y(inputs, 2, n) && W(state, inputs, n),
        Y(inputs, 2, n - 1) && W(state, inputs, n - 1), W(state, inputs, n - 2),
        W(state, inputs, n - 1) && W(state, inputs, n))
  {
    hide Y, Y0, Delay, W;
    WIs(state, inputs, n + 2);
    WIs(state, inputs, n + 1);
    WIs(state, inputs, n);
    WIs(state, inputs, n - 1);
    WIs(state, inputs, n - 2);
    Steps64(state, inputs, n + 2);
    Steps64(state, inputs, n + 1);
    Steps64(state, inputs, n);
    Steps64(state, inputs, n - 1);
  }

  // Table 13.

  function Low2(n: nat): bool {
    n / 2 % 2 == 1
  }

  function Low3(n: nat): bool {
    n / 4 % 2 == 1
  }

  function Low1(n: nat): bool {
    n % 2 == 1
  }

  predicate InputsOf(n: nat, y1: bool, y2: bool, y3: bool, y4: bool) {
    n == Bit(y1) + 2 * Bit(y2) + 4 * Bit(y3) + 8 * Bit(y4)
  }

  lemma RowIs(row: seq<nat>, first: Subset, second: Subset)
    requires row == INPUTS[first]
    ensures InputsOf(row[second], Odd(Low2(second), Low2(first), Low1(first) && !Low1(second), false, false),
      Low1(first), Low2(first), Low3(first) != Low3(second))
  {
  }

  /** Table 13 as sums of the bits of the two labels. */
  lemma InputsAre(first: Subset, second: Subset)
    ensures InputsOf(Inputs(first, second),
      Odd(Low2(second), Low2(first), Low1(first) && !Low1(second), false, false),
      Low1(first), Low2(first), Low3(first) != Low3(second))
  {
    RowIs(INPUTS[first], first, second);
  }
}
