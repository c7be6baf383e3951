/** The 16-bit frame check sequence, bit by bit and octet by octet. */
module Fcs {
  import opened Prelude
  import opened BitField

  const FCS_INIT: bv16 := 0xffff
  /** The generator of V.42 with its bits mirrored: terms 16, 12, 5 and 0. */
  const FCS_POLY: bv16 := 0x8408
  /** The register that `FramePasses` proves a whole frame to leave (section 8.1.1.6.1 of V.42). */
  const FCS_GOOD: bv16 := 0xf0b8

  function Xor(a: bv16, b: bv16): bv16 {
    a ^ b
  }

  function Complement(w: bv16): bv16 {
    !w
  }

  function Half(w: bv16): bv16 {
    w >> 1
  }

  predicate LowBit(w: bv16) {
    w & 1 == 1
  }

  /** A shift of the register with no bit coming in. */
  function Shift(fcs: bv16): bv16 {
    if LowBit(fcs) then Xor(Half(fcs), FCS_POLY) else Half(fcs)
  }

  function Shifts(fcs: bv16, n: nat): bv16
    decreases n
  {
    if n == 0 then fcs else Shifts(Shift(fcs), n - 1)
  }

  /** One bit into the register, as V.34 draws it. */
  function StepBit(fcs: bv16, bit: bool): bv16 {
    if LowBit(fcs) != bit then Xor(Half(fcs), FCS_POLY) else Half(fcs)
  }

  /** All of some bits into the register, first to last (section 10.1.2.3.2 of V.34). */
  function Crc(fcs: bv16, bits: Bits): bv16
    decreases |bits|
  {
    if bits == [] then fcs else Crc(StepBit(fcs, bits[0]), bits[1..])
  }

  /** The low `n` bits of a word, least significant first. */
  function WordBits(w: bv16, n: nat): (bits: Bits)
    ensures |bits| == n
    decreases n
  {
    if n == 0 then [] else [LowBit(w)] + WordBits(Half(w), n - 1)
  }

  /** What is above the low `n` bits. */
  function Above(w: bv16, n: nat): bv16
    decreases n
  {
    if n == 0 then w else Above(Half(w), n - 1)
  }

  function Append(w: bv16, bit: bool): bv16 {
    (w << 1) | (if bit then 1 else 0)
  }

  /** The word whose low bits are `bits`. */
  function WordOf(bits: Bits): bv16
    decreases |bits|
  {
    if bits == [] then 0 else Append(WordOf(bits[1..]), bits[0])
  }

  /** The 16 bits that follow a frame, as two octets. */
  function Fcs16(bytes: Octets): (fcs: Octets)
    ensures |fcs| == 2
  {
    OctetsOf(WordBits(Complement(Crc(FCS_INIT, BitsOf(bytes))), 16))
  }

  // Words and their bits.

  lemma AppendLow(w: bv16, bit: bool)
    ensures LowBit(Append(w, bit)) == bit
  {
  }

  lemma {:induction false} AboveMore(w: bv16, m: nat, n: nat)
    ensures Above(w, m + n) == Above(Above(w, m), n)
    decreases m
  {
    hide Half;
    if m > 0 {
      AboveMore(Half(w), m - 1, n);
    }
  }

  lemma AboveFour(w: bv16)
    ensures Above(w, 4) == w >> 4
  {
    assert Above(w, 2) == w >> 2;
    AboveMore(w, 2, 2);
    assert Above(w >> 2, 2) == w >> 4;
  }

  lemma AboveTwelve(w: bv16)
    ensures Above(w, 12) == w >> 12
  {
    hide Above;
    AboveMore(w, 4, 8);
    AboveMore(w >> 4, 4, 4);
    AboveFour(w);
    AboveFour(w >> 4);
    AboveFour(w >> 8);
  }

  lemma AboveAll(w: bv16)
    ensures Above(w, 16) == 0
  {
    hide Above;
    AboveTwelve(w);
    AboveMore(w, 12, 4);
    AboveFour(w >> 12);
  }

  lemma AboveTop(w: bv16)
    ensures Above(w, 15) == w >> 15
  {
    hide Above;
    AboveTwelve(w);
    AboveMore(w, 12, 3);
    AboveThree(w >> 12);
  }

  lemma AboveThree(w: bv16)
    ensures Above(w, 3) == w >> 3
  {
    assert Above(w, 2) == w >> 2;
    AboveMore(w, 2, 1);
    assert Above(w >> 2, 1) == w >> 3;
  }

  lemma AppendHigh(w: bv16, bit: bool)
    requires w >> 15 == 0
    ensures Half(Append(w, bit)) == w
  {
  }

  lemma {:induction false} NothingAbove(n: nat)
    ensures Above(0, n) == 0
  {
    if n > 0 {
      NothingAbove(n - 1);
    }
  }

  /** A word with nothing above its low `n` bits has room for one more. */
  lemma RoomAbove(w: bv16, n: nat)
    requires n <= 15 && Above(w, n) == 0
    ensures w >> 15 == 0
  {
    hide Above;
    AboveMore(w, n, 15 - n);
    NothingAbove(15 - n);
    AboveTop(w);
  }

  lemma {:induction false} WordInverts(bits: Bits)
    requires |bits| <= 16
    ensures WordBits(WordOf(bits), |bits|) == bits
    ensures Above(WordOf(bits), |bits|) == 0
    decreases |bits|
  {
    hide Append, LowBit, Half;
    if bits != [] {
      WordInverts(bits[1..]);
      RoomAbove(WordOf(bits[1..]), |bits| - 1);
      AppendLow(WordOf(bits[1..]), bits[0]);
      AppendHigh(WordOf(bits[1..]), bits[0]);
    }
  }

  // The register.

  lemma {:induction false} CrcAppends(fcs: bv16, a: Bits, b: Bits)
    ensures Crc(fcs, a + b) == Crc(Crc(fcs, a), b)
    decreases |a|
  {
    hide StepBit;
    if a == [] {
      assert a + b == b;
    } else {
      CrcAppends(StepBit(fcs, a[0]), a[1..], b);
      assert (a + b)[1..] == a[1..] + b;
    }
  }

  lemma XorParts(a: bv16, b: bv16)
    ensures Half(Xor(a, b)) == Xor(Half(a), Half(b))
    ensures LowBit(Xor(a, b)) == (LowBit(a) != LowBit(b))
  {
  }

  lemma XorCommutes(a: bv16, b: bv16, c: bv16)
    ensures Xor(Xor(a, b), c) == Xor(Xor(a, c), b)
  {
  }

  lemma StepFolds(fcs: bv16, w: bv16)
    ensures Xor(StepBit(fcs, LowBit(w)), Half(w)) == Shift(Xor(fcs, w))
  {
    hide Xor, Half, LowBit;
    XorParts(fcs, w);
    XorCommutes(Half(fcs), FCS_POLY, Half(w));
  }

  lemma CrcStep(fcs: bv16, bit: bool, bits: Bits)
    ensures Crc(fcs, [bit] + bits) == Crc(StepBit(fcs, bit), bits)
  {
    assert ([bit] + bits)[1..] == bits;
  }

  /** Bits that come one by one might as well be in the register from the start. */
  lemma {:induction false} CrcFolds(fcs: bv16, w: bv16, n: nat)
    ensures Xor(Crc(fcs, WordBits(w, n)), Above(w, n)) == Shifts(Xor(fcs, w), n)
    decreases n
  {
    hide StepBit, Shift, Xor, Half, LowBit;
    if n > 0 {
      StepFolds(fcs, w);
      CrcFolds(StepBit(fcs, LowBit(w)), Half(w), n - 1);
      CrcStep(fcs, LowBit(w), WordBits(Half(w), n - 1));
    }
  }

  lemma XorZero(a: bv16)
    ensures Xor(a, 0) == a
  {
  }

  lemma ShiftInjective(a: bv16, b: bv16)
    requires Shift(a) == Shift(b)
    ensures a == b
  {
  }

  lemma {:induction false} ShiftsInjective(a: bv16, b: bv16, n: nat)
    requires Shifts(a, n) == Shifts(b, n)
    ensures a == b
    decreases n
  {
    hide Shift;
    if n > 0 {
      ShiftsInjective(Shift(a), Shift(b), n - 1);
      ShiftInjective(a, b);
    }
  }

  lemma StepInjective(a: bv16, b: bv16, bit: bool)
    requires StepBit(a, bit) == StepBit(b, bit)
    ensures a == b
  {
  }

  lemma {:induction false} CrcInjective(a: bv16, b: bv16, bits: Bits)
    requires Crc(a, bits) == Crc(b, bits)
    ensures a == b
    decreases |bits|
  {
    hide StepBit;
    if bits != [] {
      CrcInjective(StepBit(a, bits[0]), StepBit(b, bits[0]), bits[1..]);
      StepInjective(a, b, bits[0]);
    }
  }

  /** Up to 16 bits folded in at once. */
  lemma CrcOfWord(fcs: bv16, bits: Bits)
    requires |bits| <= 16
    ensures Crc(fcs, bits) == Shifts(Xor(fcs, WordOf(bits)), |bits|)
  {
    hide Crc, Shifts, WordBits, WordOf, Above, Xor;
    WordInverts(bits);
    CrcFolds(fcs, WordOf(bits), |bits|);
    XorZero(Crc(fcs, bits));
  }

  // What the FCS is for.

  lemma {:induction false} ShiftsAdd(fcs: bv16, m: nat, n: nat)
    ensures Shifts(fcs, m + n) == Shifts(Shifts(fcs, m), n)
    decreases m
  {
    hide Shift;
    if m > 0 {
      ShiftsAdd(Shift(fcs), m - 1, n);
    }
  }

  lemma ShiftsGood()
    ensures Shifts(0xffff, 16) == FCS_GOOD
  {
    ShiftsAdd(0xffff, 4, 12);
    assert Shifts(0xffff, 4) == 0xf870;
    ShiftsAdd(0xf870, 4, 8);
    assert Shifts(0xf870, 4) == 0x0f87;
    ShiftsAdd(0x0f87, 4, 4);
    assert Shifts(0x0f87, 4) == 0x737f;
    assert Shifts(0x737f, 4) == FCS_GOOD;
  }

  lemma XorComplement(a: bv16)
    ensures Xor(a, !a) == 0xffff
  {
  }

  /** Whatever a frame left in the register, its FCS takes it to the one good value. */
  lemma Residue(fcs: bv16)
    ensures Crc(fcs, WordBits(Complement(fcs), 16)) == FCS_GOOD
  {
    hide Crc, Shifts, WordBits, Above, Xor;
    CrcFolds(fcs, Complement(fcs), 16);
    AboveAll(Complement(fcs));
    XorZero(Crc(fcs, WordBits(Complement(fcs), 16)));
    XorComplement(fcs);
    ShiftsGood();
  }

  /** Any octets with `Fcs16` after them pass the receiver's check. */
  lemma FramePasses(bytes: Octets)
    ensures Crc(FCS_INIT, BitsOf(bytes + Fcs16(bytes))) == FCS_GOOD
  {
    hide Crc, WordBits, BitsOf, OctetsOf;
    var fcs := Crc(FCS_INIT, BitsOf(bytes));
    BitsAppend(bytes, Fcs16(bytes));
    BitsOfInvert(WordBits(Complement(fcs), 16));
    CrcAppends(FCS_INIT, BitsOf(bytes), WordBits(Complement(fcs), 16));
    Residue(fcs);
  }

  lemma XorInjective(fcs: bv16, a: bv16, b: bv16)
    requires Xor(fcs, a) == Xor(fcs, b)
    ensures a == b
  {
  }

  /** Two bursts of up to 16 bits that leave the same register are the same burst. */
  lemma BurstsDiffer(fcs: bv16, a: Bits, b: Bits)
    requires |a| == |b| <= 16
    requires Crc(fcs, a) == Crc(fcs, b)
    ensures a == b
  {
    hide Crc, Shifts, WordBits, WordOf, Above, Xor;
    CrcOfWord(fcs, a);
    CrcOfWord(fcs, b);
    ShiftsInjective(Xor(fcs, WordOf(a)), Xor(fcs, WordOf(b)), |a|);
    XorInjective(fcs, WordOf(a), WordOf(b));
    WordInverts(a);
    WordInverts(b);
  }

  /** A good frame of any length, changed within 16 consecutive bits, is not good. */
  lemma BurstIsCaught(before: Bits, burst: Bits, changed: Bits, after: Bits)
    requires |burst| == |changed| <= 16 && burst != changed
    requires Crc(FCS_INIT, before + burst + after) == FCS_GOOD
    ensures Crc(FCS_INIT, before + changed + after) != FCS_GOOD
  {
    hide Crc;
    CrcAppends(FCS_INIT, before + burst, after);
    CrcAppends(FCS_INIT, before + changed, after);
    CrcAppends(FCS_INIT, before, burst);
    CrcAppends(FCS_INIT, before, changed);
    var fcs := Crc(FCS_INIT, before);
    if Crc(FCS_INIT, before + changed + after) == FCS_GOOD {
      CrcInjective(Crc(fcs, burst), Crc(fcs, changed), after);
      BurstsDiffer(fcs, burst, changed);
    }
  }

  // The register taken an octet at a time.

  lemma CrcOfOctet(fcs: bv16, octet: Octet)
    ensures Crc(fcs, OctetBits(octet)) == Shifts(Xor(fcs, WordOf(OctetBits(octet))), 8)
  {
    CrcOfWord(fcs, OctetBits(octet));
  }

  lemma CrcNextOctet(fcs: bv16, bytes: Octets, n: nat)
    requires n < |bytes|
    ensures Crc(fcs, BitsOf(bytes[..n + 1])) == Crc(Crc(fcs, BitsOf(bytes[..n])), OctetBits(bytes[n]))
  {
    hide Crc, OctetBits;
    assert bytes[..n + 1] == bytes[..n] + [bytes[n]];
    assert BitsOf([bytes[n]]) == OctetBits(bytes[n]);
    BitsAppend(bytes[..n], [bytes[n]]);
    CrcAppends(fcs, BitsOf(bytes[..n]), OctetBits(bytes[n]));
  }

  lemma ShiftsNext(fcs: bv16, n: nat)
    ensures Shifts(fcs, n + 1) == Shift(Shifts(fcs, n))
  {
    hide Shift;
    ShiftsAdd(fcs, n, 1);
  }

  /** Octets folded into the register whole, then eight shifts. */
  method FcsUpdate(start: bv16, bytes: Octets) returns (fcs: bv16)
    ensures fcs == Crc(start, BitsOf(bytes))
  {
    hide Crc, Shift, Xor, WordOf, OctetBits;
    fcs := start;
    assert bytes[..0] == [] && Crc(start, BitsOf([])) == start by {
      CrcOfNothing(start);
    }
    for n := 0 to |bytes|
      invariant fcs == Crc(start, BitsOf(bytes[..n]))
    {
      ghost var word := Xor(fcs, WordOf(OctetBits(bytes[n])));
      CrcNextOctet(start, bytes, n);
      CrcOfOctet(fcs, bytes[n]);
      fcs := Xor(fcs, WordOf(OctetBits(bytes[n])));
      for i := 0 to 8
        invariant fcs == Shifts(word, i)
      {
        ShiftsNext(word, i);
        fcs := Shift(fcs);
      }
    }
    assert bytes[..|bytes|] == bytes;
  }

  lemma CrcOfNothing(fcs: bv16)
    ensures Crc(fcs, BitsOf([])) == fcs
  {
  }
}
