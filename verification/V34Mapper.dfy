/** Mapping frames of V.34 data mode: bits to pairs of points (table 11), and points back to bits. */
module V34Mapper {
  import opened Prelude
  import opened Arithmetic
  import opened BitField
  import opened V34Constellation
  import F = V34Framing

  /** The channel output of a 4D symbol. */
  datatype Pair = Pair(first: Point, second: Point)

  /** The bits of a 4D symbol besides its rings. */
  datatype Group = Group(i1: bool, i2: bool, i3: bool, first: nat, second: nat)

  // The bit inversion patterns of table 12, in the order of the half data frames.

  const INVERSIONS_7: Bits := [
    false, true, true, true, false, true, true, true, true, true, true, true, true, false]
  const INVERSIONS_8: Bits := [
    false, true, true, true, false, true, true, true, true, true, true, true, true, false, true, false]

  /** Whether table 12 inverts U0 of 4D symbol m, counting from the start of data mode. */
  predicate Inversion(f: F.Framing, m: nat)
    requires f.p > 0
  {
    StartsHalf(f.p, m) && PatternBit(f.j, HalfAt(f.p, m))
  }

  predicate StartsHalf(p: nat, m: nat)
    requires p > 0
  {
    m % (2 * p) == 0
  }

  function HalfAt(p: nat, m: nat): nat
    requires p > 0
  {
    DivNonnegative(m, 2 * p);
    m / (2 * p)
  }

  lemma DivNonnegative(m: nat, d: nat)
    requires d > 0
    ensures m / d >= 0
  {
  }

  function PatternBit(j: nat, half: nat): bool {
    var pattern := if j == 8 then INVERSIONS_8 else INVERSIONS_7;
    pattern[(half + |pattern| - 2) % |pattern|]
  }

  /** Bit `n` of a table of `length` bits, counting from the left. */
  function LeftBit(table: nat, length: nat, n: nat): bool
    requires n < length
  {
    table / Pow2(length - 1 - n) % 2 == 1
  }

  /** Table 12 for half `i` of data frame `d` of a superframe, of which there are J. */
  function Table12(j: nat, d: nat, i: nat): bool
    requires (j == 7 || j == 8) && d < j && i < 2
  {
    if j == 8 then LeftBit(0x77fa, 16, 2 * d + i) else LeftBit(0x1dfe, 14, 2 * d + i)
  }

  lemma Table12Is7(n: nat)
    requires n < 14
    ensures LeftBit(0x1dfe, 14, n) == INVERSIONS_7[n]
  {
    PowersTo16();
  }

  lemma Table12Is8(n: nat)
    requires n < 16
    ensures LeftBit(0x77fa, 16, n) == INVERSIONS_8[n]
  {
    PowersTo16();
  }

  lemma PowersTo16()
    ensures Pow2(0) == 1 && Pow2(1) == 2 && Pow2(2) == 4 && Pow2(3) == 8 && Pow2(4) == 16 && Pow2(5) == 32
    ensures Pow2(6) == 64 && Pow2(7) == 128 && Pow2(8) == 256 && Pow2(9) == 512 && Pow2(10) == 1024
    ensures Pow2(11) == 2048 && Pow2(12) == 4096 && Pow2(13) == 8192 && Pow2(14) == 16384 && Pow2(15) == 32768
  {
  }

  /** The offset into the table, as a data frame and its half: the first data frame of data mode ends a superframe. */
  lemma HalfIsIn(j: nat, d: nat, i: nat)
    requires (j == 7 || j == 8) && i < 2
    ensures (2 * d + i + 2 * j - 2) % (2 * j) == 2 * ((d + j - 1) % j) + i
  {
    var n := d + j - 1;
    var q, r := n / j, n % j;
    assert n == j * q + r;
    if j == 7 {
      AddFourteens(2 * r + i, q);
    } else {
      AddSixteens(2 * r + i, q);
    }
  }

  lemma AddFourteens(v: nat, q: int)
    requires v < 14
    ensures (v + 14 * q) % 14 == v
  {
  }

  lemma AddSixteens(v: nat, q: int)
    requires v < 16
    ensures (v + 16 * q) % 16 == v
  {
  }

  /** Whether 4D symbol m begins a half data frame that table 12 marks. */
  predicate InvertedByTable(j: nat, p: nat, m: nat)
    requires (j == 7 || j == 8) && p > 0
  {
    StartsHalf(p, m) && HalfInverted(j, HalfAt(p, m))
  }

  /** The table's bit for a half of data mode, whose first two halves end a superframe. */
  function HalfInverted(j: nat, half: nat): bool
    requires j == 7 || j == 8
  {
    if j == 7 then Table12(7, (half / 2 + 6) % 7, half % 2) else Table12(8, (half / 2 + 7) % 8, half % 2)
  }

  /** The code enters table 12 where the superframe is. */
  lemma InversionIs(f: F.Framing, m: nat)
    requires f.p > 0 && (f.j == 7 || f.j == 8)
    ensures Inversion(f, m) == InvertedByTable(f.j, f.p, m)
  {
    hide PatternBit, HalfInverted, StartsHalf, HalfAt;
    HalfIs(f.j, HalfAt(f.p, m));
  }

  lemma HalfIs(j: nat, half: nat)
    requires j == 7 || j == 8
    ensures PatternBit(j, half) == HalfInverted(j, half)
  {
    hide LeftBit;
    HalfIsIn(j, half / 2, half % 2);
    if j == 8 {
      Table12Is8(2 * ((half / 2 + 7) % 8) + half % 2);
    } else {
      Table12Is7(2 * ((half / 2 + 6) % 7) + half % 2);
    }
  }

  /** Bit n of the table is for the half n + 2 halves into data mode, and again every 2J halves. */
  lemma TableFromB1(f: F.Framing, n: nat)
    requires f.p > 0 && (f.j == 7 || f.j == 8)
    ensures Inversion(f, 2 * f.p * (n + 2))
      == (if f.j == 8 then LeftBit(0x77fa, 16, n % 16) else LeftBit(0x1dfe, 14, n % 14))
  {
    hide LeftBit;
    DivMod(2 * f.p * (n + 2), n + 2, 0, 2 * f.p);
    if f.j == 8 {
      AddSixteens(n % 16, n / 16 + 1);
      assert n + 2 + 16 - 2 == n % 16 + 16 * (n / 16 + 1);
      Table12Is8(n % 16);
    } else {
      AddFourteens(n % 14, n / 14 + 1);
      assert n + 2 + 14 - 2 == n % 14 + 14 * (n / 14 + 1);
      Table12Is7(n % 14);
    }
  }

  /** No 4D symbol within a half data frame is inverted. */
  lemma OnlyHalvesInverted(f: F.Framing, m: nat)
    requires f.p > 0 && Inversion(f, m)
    ensures m % (2 * f.p) == 0
  {
    hide PatternBit, HalfAt;
  }

  // Bits to groups.

  function Next1(bits: Bits): bool {
    bits != [] && bits[0]
  }

  function Rest(bits: Bits): Bits {
    if bits == [] then [] else bits[1..]
  }

  function ParseOne(bits: Bits, hasI3: bool): Group {
    Group(Next1(bits), Next1(Rest(bits)), hasI3 && Next1(Rest(Rest(bits))), 0, 0)
  }

  function AfterOne(bits: Bits, hasI3: bool): Bits {
    var after := Rest(Rest(bits));
    if hasI3 then Rest(after) else after
  }

  /** Groups from `j` on with no rings and no more than the I bits. */
  function ParseFew(bits: Bits, withI3: nat, j: nat): (groups: seq<Group>)
    requires j <= 4
    ensures |groups| == 4 - j
    decreases 4 - j
  {
    if j == 4 then []
    else [ParseOne(bits, j < withI3)] + ParseFew(AfterOne(bits, j < withI3), withI3, j + 1)
  }

  function GroupSize(q: nat): nat {
    3 + 2 * q
  }

  function ParseGroup(bits: Bits, q: nat): Group
    requires |bits| == GroupSize(q)
  {
    Group(bits[0], bits[1], bits[2], FieldOf(bits[3..3 + q]), FieldOf(bits[3 + q..]))
  }

  function ParseGroups(bits: Bits, q: nat, n: nat): (groups: seq<Group>)
    requires |bits| == n * GroupSize(q)
    ensures |groups| == n
    decreases n
  {
    if n == 0 then []
    else
      var size := GroupSize(q);
      GroupFits(size, n);
      [ParseGroup(bits[..size], q)] + ParseGroups(bits[size..], q, n - 1)
  }

  lemma GroupFits(size: nat, n: nat)
    requires n > 0
    ensures n * size == size + (n - 1) * size
  {
    MulDistributes(n - 1, 1, size);
  }

  function OneBits(g: Group, hasI3: bool): Bits {
    [g.i1, g.i2] + if hasI3 then [g.i3] else []
  }

  function SerializeFew(groups: seq<Group>, withI3: nat, j: nat): Bits
    decreases |groups|
  {
    if groups == [] then [] else OneBits(groups[0], j < withI3) + SerializeFew(groups[1..], withI3, j + 1)
  }

  function GroupBits(g: Group, q: nat): (bits: Bits)
    ensures |bits| == GroupSize(q)
  {
    [g.i1, g.i2, g.i3] + FieldBits(g.first, q) + FieldBits(g.second, q)
  }

  function SerializeGroups(groups: seq<Group>, q: nat): Bits {
    if groups == [] then [] else GroupBits(groups[0], q) + SerializeGroups(groups[1..], q)
  }

  /** The bits of groups `j` to 3, of which the first `withI3` have three. */
  function FewBits(withI3: nat, j: nat): nat
    requires j <= 4
    decreases 4 - j
  {
    if j == 4 then 0 else (if j < withI3 then 3 else 2) + FewBits(withI3, j + 1)
  }

  lemma OneInverts(bits: Bits, hasI3: bool)
    requires |bits| >= if hasI3 then 3 else 2
    ensures OneBits(ParseOne(bits, hasI3), hasI3) + AfterOne(bits, hasI3) == bits
    ensures |AfterOne(bits, hasI3)| == |bits| - if hasI3 then 3 else 2
  {
  }

  lemma {:induction false} ParseFewInverts(bits: Bits, withI3: nat, j: nat)
    requires j <= 4 && |bits| == FewBits(withI3, j)
    ensures SerializeFew(ParseFew(bits, withI3, j), withI3, j) == bits
    decreases 4 - j
  {
    hide ParseOne, AfterOne, OneBits;
    if j < 4 {
      var groups := ParseFew(bits, withI3, j);
      var after := AfterOne(bits, j < withI3);
      OneInverts(bits, j < withI3);
      ParseFewInverts(after, withI3, j + 1);
      assert groups[0] == ParseOne(bits, j < withI3) && groups[1..] == ParseFew(after, withI3, j + 1);
    } else {
      assert bits == [];
    }
  }

  lemma FewBitsAre(n: nat)
    requires 8 <= n <= 12
    ensures FewBits(n - 8, 0) == n
  {
    var i3 := n - 8;
    assert FewBits(i3, 3) == if i3 > 3 then 3 else 2;
    assert FewBits(i3, 2) == (if i3 > 2 then 3 else 2) + FewBits(i3, 3);
    assert FewBits(i3, 1) == (if i3 > 1 then 3 else 2) + FewBits(i3, 2);
  }

  lemma GroupInverts(bits: Bits, q: nat)
    requires |bits| == GroupSize(q)
    ensures GroupBits(ParseGroup(bits, q), q) == bits
  {
    hide FieldBits, FieldOf;
    FieldBitsInvert(bits[3..3 + q]);
    FieldBitsInvert(bits[3 + q..]);
    assert bits == [bits[0], bits[1], bits[2]] + bits[3..3 + q] + bits[3 + q..];
  }

  lemma {:induction false} ParseGroupsInverts(bits: Bits, q: nat, n: nat)
    requires |bits| == n * GroupSize(q)
    ensures SerializeGroups(ParseGroups(bits, q, n), q) == bits
    decreases n
  {
    hide GroupSize, ParseGroup, GroupBits;
    if n > 0 {
      var size := GroupSize(q);
      GroupFits(size, n);
      GroupInverts(bits[..size], q);
      ParseGroupsInverts(bits[size..], q, n - 1);
      var groups := ParseGroups(bits, q, n);
      assert groups[0] == ParseGroup(bits[..size], q) && groups[1..] == ParseGroups(bits[size..], q, n - 1);
      assert bits == bits[..size] + bits[size..];
    } else {
      assert bits == [];
    }
  }

  /** R0 and the groups of a mapping frame. */
  datatype Parsed = Parsed(r0: nat, groups: seq<Group>)

  function ShellBits(f: F.Framing, high: bool): int {
    if high then f.k else f.k - 1
  }

  predicate BitsFit(f: F.Framing, high: bool, bits: Bits) {
    |bits| == f.b - if high then 0 else 1
  }

  lemma FrameFits(f: F.Framing, high: bool, bits: Bits)
    requires F.FramingOk(f) && BitsFit(f, high, bits) && f.b > 12
    ensures 0 <= ShellBits(f, high) <= |bits|
    ensures |bits| - ShellBits(f, high) == 4 * GroupSize(f.q)
    ensures |bits| == f.b <==> high
  {
  }

  function Parse(f: F.Framing, high: bool, bits: Bits): (parsed: Parsed)
    requires F.FramingOk(f) && BitsFit(f, high, bits) && |bits| >= 8
    ensures |parsed.groups| == 4
  {
    if f.b <= 12 then Parsed(0, ParseFew(bits, |bits| - 8, 0))
    else
      FrameFits(f, high, bits);
      var shellBits := ShellBits(f, |bits| == f.b);
      Parsed(FieldOf(bits[..shellBits]), ParseGroups(bits[shellBits..], f.q, 4))
  }

  function Serialize(f: F.Framing, high: bool, parsed: Parsed): Bits
    requires f.b <= 12 ==> f.b >= if high then 8 else 9
    requires f.b > 12 ==> ShellBits(f, high) >= 0
  {
    if f.b <= 12 then SerializeFew(parsed.groups, f.b - (if high then 0 else 1) - 8, 0)
    else FieldBits(parsed.r0, ShellBits(f, high)) + SerializeGroups(parsed.groups, f.q)
  }

  lemma ParseInverts(f: F.Framing, high: bool, bits: Bits)
    requires F.FramingOk(f) && BitsFit(f, high, bits) && |bits| >= 8
    ensures Serialize(f, high, Parse(f, high, bits)) == bits
  {
    if f.b <= 12 {
      FewBitsAre(|bits|);
      ParseFewInverts(bits, |bits| - 8, 0);
    } else {
      FrameFits(f, high, bits);
      var shellBits := ShellBits(f, high);
      FieldBitsInvert(bits[..shellBits]);
      hide FieldOf, FieldBits, ParseGroups, SerializeGroups;
      ParseGroupsInverts(bits[shellBits..], f.q, 4);
      assert bits == bits[..shellBits] + bits[shellBits..];
    }
  }

  predicate Halves(g: Group, q: nat) {
    g.first < Pow2(q) && g.second < Pow2(q)
  }

  lemma GroupHalves(bits: Bits, q: nat)
    requires |bits| == GroupSize(q)
    ensures Halves(ParseGroup(bits, q), q)
  {
  }

  lemma {:induction false} HalvesFit(bits: Bits, q: nat, n: nat)
    requires |bits| == n * GroupSize(q)
    ensures forall g :: g in ParseGroups(bits, q, n) ==> Halves(g, q)
    decreases n
  {
    hide GroupSize, ParseGroup, Halves;
    if n > 0 {
      var size := GroupSize(q);
      GroupFits(size, n);
      GroupHalves(bits[..size], q);
      HalvesFit(bits[size..], q, n - 1);
    }
  }

  lemma {:induction false} FewFit(bits: Bits, withI3: nat, j: nat)
    requires j <= 4
    ensures forall g :: g in ParseFew(bits, withI3, j) ==> Halves(g, 0)
    decreases 4 - j
  {
    if j < 4 {
      FewFit(AfterOne(bits, j < withI3), withI3, j + 1);
    }
  }
}
