/** The V.34 data mode encoder, and the receiver's way from the channel output it decided on back to bits. */
module V34Coder {
  import opened Prelude
  import opened Arithmetic
  import opened V34Constellation
  import opened V34Trellis
  import opened V34Mapper
  import F = V34Framing
  import P = V34Precoder

  // Labels.

  function LabelOf(f: F.Framing, half: nat, ring: nat): nat {
    half + ring * Pow2(f.q)
  }

  lemma LabelSplits(f: F.Framing, half: nat, ring: nat)
    requires F.FramingOk(f) && half < Pow2(f.q) && ring < f.rings
    ensures LabelOf(f, half, ring) < QUARTER
    ensures LabelOf(f, half, ring) / Pow2(f.q) == ring && LabelOf(f, half, ring) % Pow2(f.q) == half
  {
    hide Pow2, F.Eighth;
    var m := Pow2(f.q);
    DivMod(half + ring * m, ring, half, m);
    FieldsBelow(half, ring, f.rings, m);
  }

  lemma FieldsBelow(half: nat, ring: nat, rings: nat, m: nat)
    requires half < m && ring < rings && rings * m <= 416
    ensures half + ring * m < 416
  {
    MulMonotone(ring + 1, rings, m);
    MulDistributes(ring, 1, m);
  }

  lemma TurnsStayBelow(p: Point, n: nat)
    requires n < 4 && P.InConstellation(p)
    ensures P.InConstellation(Turns(p, n))
  {
    TurnsAre(p);
    hide Turns;
  }

  lemma TurnsParity(p: Point, n: nat)
    requires n < 4 && OneModFour(p)
    ensures var u := Turns(p, n);
      OnOddGrid(u) && ((u.re + u.im) % 4 == 0 <==> n == 1 || n == 3)
  {
    TurnsAre(p);
    PointParity(p.re, p.im);
    hide Turns;
  }

  lemma LabelInConstellation(l: nat)
    requires l < QUARTER
    ensures P.InConstellation(LabelPoint(l))
  {
  }

  lemma TurnedInConstellation(l: nat, turns: nat)
    requires l < QUARTER
    ensures P.InConstellation(Rotate(LabelPoint(l), turns))
    ensures var u := Rotate(LabelPoint(l), turns);
      OnOddGrid(u) && ((u.re + u.im) % 4 == 0 <==> turns % 2 == 1)
  {
    hide Turns, LabelPoint, OnOddGrid, P.InConstellation;
    TurnParity(turns);
    TurnedBy(l, turns % 4);
  }

  lemma TurnedBy(l: nat, n: nat)
    requires l < QUARTER && n < 4
    ensures var u := Turns(LabelPoint(l), n);
      P.InConstellation(u) && OnOddGrid(u) && ((u.re + u.im) % 4 == 0 <==> n == 1 || n == 3)
  {
    hide Turns, LabelPoint, OneModFour, OnOddGrid, P.InConstellation;
    LabelIsOnGrid(l);
    LabelInConstellation(l);
    TurnsStayBelow(LabelPoint(l), n);
    TurnsParity(LabelPoint(l), n);
  }

  lemma TurnParity(turns: nat)
    ensures turns % 2 == 1 <==> turns % 4 == 1 || turns % 4 == 3
  {
    AddTwos(turns % 4, 2 * (turns / 4));
  }

  lemma AddFours(v: int, k: int)
    ensures (v + 4 * k) % 4 == v % 4
  {
  }

  lemma OneModFourIs(x: int) returns (a: int)
    requires x % 4 == 1
    ensures x == 4 * a + 1 && x % 2 == 1 && -x % 2 == 1
  {
    a := x / 4;
    AddTwos(1, 2 * a);
    AddTwos(1, -2 * a - 1);
  }

  lemma PointParity(x: int, y: int)
    requires x % 4 == 1 && y % 4 == 1
    ensures x % 2 == 1 && y % 2 == 1 && -x % 2 == 1 && -y % 2 == 1
    ensures (x + y) % 4 == 2 && (y - x) % 4 == 0 && (-x - y) % 4 == 2 && (x - y) % 4 == 0
  {
    var a := OneModFourIs(x);
    var b := OneModFourIs(y);
    AddFours(2, a + b);
    AddFours(0, b - a);
    AddFours(2, -a - b - 1);
    AddFours(0, a - b);
  }

  // Encoding.

  datatype Encoder = Encoder(
    framing: F.Framing,
    trellis: Trellis,
    frame: nat,
    quadrant: nat,
    state: nat,
    precoder: P.Precoder)

  function New(framing: F.Framing, trellis: Trellis, precoding: P.Precoding): Encoder {
    Encoder(framing, trellis, 0, 0, 0, P.New(precoding, F.PrecoderModulo(framing)))
  }

  predicate EncoderOk(e: Encoder) {
    && F.FramingOk(e.framing)
    && e.quadrant < 4
    && e.state < States(e.trellis)
    && P.PrecoderOk(e.precoder)
  }

  lemma NewIsOk(framing: F.Framing, trellis: Trellis, precoding: P.Precoding)
    requires F.FramingOk(framing)
    ensures EncoderOk(New(framing, trellis, precoding))
  {
    hide P.PrecoderOk, F.FramingOk;
    P.NewIsOk(precoding, F.PrecoderModulo(framing));
  }

  /** Whether adding `c` to a point moves its coordinates' sum by two modulo four (`OffsetParity`). */
  predicate Parity(c: Point) {
    (c.re / 2 + c.im / 2) % 2 == 1
  }

  function Turned(quadrant: nat, g: Group): nat {
    (quadrant + Bit(g.i2) + 2 * Bit(g.i3)) % 4
  }

  /** What leaves the encoder for a 4D symbol: y(n), x(n) and the encoder after it. */
  datatype Symbol = Symbol(pair: Pair, first: P.Fixed, second: P.Fixed, next: Encoder)

  predicate PushOk(p: P.Precoder) {
    p.modulo > 0 && |p.history| == 3
  }

  /** Y0 with the modulo encoder's and table 12's bits. */
  predicate U0(e: Encoder, m: nat, first: Point, second: Point)
    requires e.framing.p > 0
  {
    (Output(e.trellis, e.state) != (Parity(first) != Parity(second))) != Inversion(e.framing, m)
  }

  /** A 4D symbol from its group and rings: the two points and the encoder that comes after (table 11). */
  function Encode4D(e: Encoder, m: nat, g: Group, ring1: nat, ring2: nat): Symbol
    requires e.framing.p > 0 && PushOk(e.precoder)
    requires LabelOf(e.framing, g.first, ring1) < QUARTER && LabelOf(e.framing, g.second, ring2) < QUARTER
  {
    var quadrant := Turned(e.quadrant, g);
    var u1 := Rotate(LabelPoint(LabelOf(e.framing, g.first, ring1)), quadrant);
    var c1 := e.precoder.c;
    var y1 := Plus(u1, c1);
    var p1 := P.Push(e.precoder, y1);
    var c2 := p1.c;
    var turns := quadrant + (2 * Bit(g.i1) + Bit(U0(e, m, c1, c2)));
    var u2 := Rotate(LabelPoint(LabelOf(e.framing, g.second, ring2)), turns);
    var y2 := Plus(u2, c2);
    var p2 := P.Push(p1, y2);
    var state := Next(e.trellis, e.state, Inputs(SubsetOf(y1), SubsetOf(y2)));
    Symbol(Pair(y1, y2), P.Sent(e.precoder, y1), P.Sent(p1, y2),
           e.(quadrant := quadrant, state := state, precoder := p2))
  }

  predicate RingsFit(f: F.Framing, g: Group, ring1: nat, ring2: nat) {
    Halves(g, f.q) && ring1 < f.rings && ring2 < f.rings
  }

  lemma LabelsFit(e: Encoder, g: Group, ring1: nat, ring2: nat)
    requires EncoderOk(e) && RingsFit(e.framing, g, ring1, ring2)
    ensures e.framing.p > 0 && e.framing.rings >= 1 && PushOk(e.precoder)
    ensures LabelOf(e.framing, g.first, ring1) < QUARTER && LabelOf(e.framing, g.second, ring2) < QUARTER
  {
    hide LabelOf;
    LabelSplits(e.framing, g.first, ring1);
    LabelSplits(e.framing, g.second, ring2);
  }

  // Decoding.

  /** The receiver's mirror of the differential encoder and the precoder. */
  datatype Mirror = Mirror(quadrant: nat, precoder: P.Precoder)

  function MirrorOf(e: Encoder): Mirror {
    Mirror(e.quadrant, e.precoder)
  }

  /** A point's label and turns with c(n) taken away. */
  function UnmapPoint(p: P.Precoder, y: Point): (nat, nat) {
    var found := Label(Minus(y, p.c));
    if found.Some? then found.value else (0, 0)
  }

  function RingOf(f: F.Framing, l: nat): (ring: nat)
    requires f.rings >= 1
    ensures ring < f.rings
  {
    DivNatural(l, Pow2(f.q));
    Min(l / Pow2(f.q), f.rings - 1)
  }

  /** A 4D symbol's group and rings. */
  datatype Unmapped = Unmapped(group: Group, ring1: nat, ring2: nat)

  function Unmap4D(f: F.Framing, d: Mirror, pair: Pair): (u: Unmapped)
    requires f.rings >= 1 && PushOk(d.precoder)
    ensures u.ring1 < f.rings && u.ring2 < f.rings
  {
    hide Label, P.Push, Pow2;
    var (l1, t1) := UnmapPoint(d.precoder, pair.first);
    var (l2, t2) := UnmapPoint(P.Push(d.precoder, pair.first), pair.second);
    var i := (4 + t1 - d.quadrant) % 4;
    var i1 := (4 + t2 - t1) % 4 >= 2;
    Unmapped(Group(i1, i % 2 == 1, i >= 2, l1 % Pow2(f.q), l2 % Pow2(f.q)), RingOf(f, l1), RingOf(f, l2))
  }

  function MirrorAfter(d: Mirror, pair: Pair): Mirror
    requires PushOk(d.precoder)
  {
    var (_, t1) := UnmapPoint(d.precoder, pair.first);
    var p1 := P.Push(d.precoder, pair.first);
    Mirror(t1, P.Push(p1, pair.second))
  }

  lemma UnmapsPoint(p: P.Precoder, l: nat, turns: nat)
    requires l < QUARTER
    ensures UnmapPoint(p, Plus(Rotate(LabelPoint(l), turns), p.c)) == (l, turns % 4)
  {
    hide Rotate, LabelPoint, Label;
    LabelInverts(l, turns);
    var u := Rotate(LabelPoint(l), turns);
    assert Minus(Plus(u, p.c), p.c) == u;
  }

  lemma QuadrantsDiffer(quadrant: nat, a: nat, b: nat)
    requires quadrant < 4 && a < 2 && b < 2
    ensures var i := (4 + (quadrant + a + 2 * b) % 4 - quadrant) % 4;
      (i % 2 == 1 <==> a == 1) && (i >= 2 <==> b == 1)
  {
  }

  lemma TurnsDiffer(quadrant: nat, a: nat, b: nat)
    requires quadrant < 4 && a < 2 && b < 2
    ensures (4 + (quadrant + (2 * a + b)) % 4 - quadrant) % 4 >= 2 <==> a == 1
  {
  }

  lemma RingInverts(f: F.Framing, half: nat, ring: nat)
    requires F.FramingOk(f) && half < Pow2(f.q) && ring < f.rings
    ensures RingOf(f, LabelOf(f, half, ring)) == ring && LabelOf(f, half, ring) % Pow2(f.q) == half
  {
    hide LabelOf, Pow2;
    LabelSplits(f, half, ring);
  }

  /** The channel output for two labels, by how far the first is turned and the second beyond it. */
  function Output4D(p: P.Precoder, l1: nat, l2: nat, quadrant: nat, more: nat): Pair
    requires PushOk(p) && l1 < QUARTER && l2 < QUARTER
  {
    var y1 := Plus(Rotate(LabelPoint(l1), quadrant), p.c);
    Pair(y1, Plus(Rotate(LabelPoint(l2), quadrant + more), P.Push(p, y1).c))
  }

  function Remainder4(n: nat): nat {
    n % 4
  }

  lemma SmallRemainder(n: nat)
    requires n < 4
    ensures Remainder4(n) == n
  {
  }

  lemma UnmapsTurned(p: P.Precoder, l: nat, turns: nat)
    requires l < QUARTER
    ensures UnmapPoint(p, Plus(Rotate(LabelPoint(l), turns), p.c)) == (l, Remainder4(turns))
  {
    hide Rotate, LabelPoint, UnmapPoint, Plus;
    UnmapsPoint(p, l, turns);
  }

  lemma OutputPoints(p: P.Precoder, l1: nat, l2: nat, quadrant: nat, more: nat)
    requires PushOk(p) && l1 < QUARTER && l2 < QUARTER && quadrant < 4
    ensures var pair := Output4D(p, l1, l2, quadrant, more);
      && UnmapPoint(p, pair.first) == (l1, quadrant)
      && UnmapPoint(P.Push(p, pair.first), pair.second) == (l2, Remainder4(quadrant + more))
  {
    hide P.Push, LabelPoint, Rotate, UnmapPoint, Plus, Remainder4;
    var first := Output4D(p, l1, l2, quadrant, more).first;
    SmallRemainder(quadrant);
    UnmapsTurned(p, l1, quadrant);
    UnmapsTurned(P.Push(p, first), l2, quadrant + more);
  }

  lemma OutputUnmaps(f: F.Framing, d: Mirror, l1: nat, l2: nat, a: nat, b: nat, i1: nat, u0: nat)
    requires f.rings >= 1 && PushOk(d.precoder) && l1 < QUARTER && l2 < QUARTER && d.quadrant < 4
    requires a < 2 && b < 2 && i1 < 2 && u0 < 2
    ensures var quadrant := (d.quadrant + a + 2 * b) % 4;
      var pair := Output4D(d.precoder, l1, l2, quadrant, 2 * i1 + u0);
      && Unmap4D(f, d, pair) == Unmapped(
          Group(i1 == 1, a == 1, b == 1, l1 % Pow2(f.q), l2 % Pow2(f.q)), RingOf(f, l1), RingOf(f, l2))
      && MirrorAfter(d, pair) == Mirror(quadrant, P.Push(P.Push(d.precoder, pair.first), pair.second))
  {
    hide P.Push, UnmapPoint, RingOf, Pow2, Unmap4D, MirrorAfter, Output4D;
    var quadrant := (d.quadrant + a + 2 * b) % 4;
    var pair := Output4D(d.precoder, l1, l2, quadrant, 2 * i1 + u0);
    OutputPoints(d.precoder, l1, l2, quadrant, 2 * i1 + u0);
    QuadrantsDiffer(d.quadrant, a, b);
    TurnsDiffer(quadrant, i1, u0);
    UnmappedIs(f, d, pair, l1, quadrant, l2, (quadrant + (2 * i1 + u0)) % 4, Group(i1 == 1, a == 1, b == 1, 0, 0));
  }

  /** A pair unmapped, from what its points come apart into. */
  lemma UnmappedIs(f: F.Framing, d: Mirror, pair: Pair, l1: nat, t1: nat, l2: nat, t2: nat, g: Group)
    requires f.rings >= 1 && PushOk(d.precoder)
    requires UnmapPoint(d.precoder, pair.first) == (l1, t1)
    requires UnmapPoint(P.Push(d.precoder, pair.first), pair.second) == (l2, t2)
    requires var i := (4 + t1 - d.quadrant) % 4; g.i2 == (i % 2 == 1) && g.i3 == (i >= 2)
    requires g.i1 == ((4 + t2 - t1) % 4 >= 2)
    ensures Unmap4D(f, d, pair)
      == Unmapped(Group(g.i1, g.i2, g.i3, l1 % Pow2(f.q), l2 % Pow2(f.q)), RingOf(f, l1), RingOf(f, l2))
    ensures MirrorAfter(d, pair) == Mirror(t1, P.Push(P.Push(d.precoder, pair.first), pair.second))
  {
    hide P.Push, UnmapPoint, RingOf, Pow2;
  }

  /** Whatever c(n) the precoder added, the receiver finds the group and the rings that were sent. */
  lemma SymbolUnmaps(e: Encoder, m: nat, g: Group, ring1: nat, ring2: nat)
    requires RingsFit(e.framing, g, ring1, ring2)
    requires EncoderOk(e)
    ensures e.framing.p > 0 && e.framing.rings >= 1 && PushOk(e.precoder)
    ensures LabelOf(e.framing, g.first, ring1) < QUARTER && LabelOf(e.framing, g.second, ring2) < QUARTER
    ensures var s := Encode4D(e, m, g, ring1, ring2);
      && Unmap4D(e.framing, MirrorOf(e), s.pair) == Unmapped(g, ring1, ring2)
      && MirrorAfter(MirrorOf(e), s.pair) == MirrorOf(s.next)
  {
    hide P.Push, P.Sent, P.PrecoderOk, Inversion, Output, SubsetOf, Inputs, Next, LabelOf, LabelPoint, Rotate,
      UnmapPoint, Parity, F.FramingOk, Plus, Unmap4D, MirrorAfter, RingOf, Pow2, Encode4D, Output4D;
    LabelsFit(e, g, ring1, ring2);
    RingInverts(e.framing, g.first, ring1);
    RingInverts(e.framing, g.second, ring2);
    var l1, l2 := LabelOf(e.framing, g.first, ring1), LabelOf(e.framing, g.second, ring2);
    var u0 := SymbolOutputs(e, m, g, ring1, ring2);
    OutputUnmaps(e.framing, MirrorOf(e), l1, l2, Bit(g.i2), Bit(g.i3), Bit(g.i1), u0);
  }

  /** A symbol's output, by its turns. */
  lemma SymbolOutputs(e: Encoder, m: nat, g: Group, ring1: nat, ring2: nat) returns (u0: nat)
    requires e.framing.p > 0 && PushOk(e.precoder)
    requires LabelOf(e.framing, g.first, ring1) < QUARTER && LabelOf(e.framing, g.second, ring2) < QUARTER
    ensures u0 < 2
    ensures var s, quadrant := Encode4D(e, m, g, ring1, ring2), Turned(e.quadrant, g);
      && s.pair == Output4D(e.precoder, LabelOf(e.framing, g.first, ring1), LabelOf(e.framing, g.second, ring2),
          quadrant, 2 * Bit(g.i1) + u0)
      && s.next.quadrant == quadrant
      && s.next.precoder == P.Push(P.Push(e.precoder, s.pair.first), s.pair.second)
  {
    hide P.Push, P.Sent, U0, SubsetOf, Inputs, Next, LabelOf, LabelPoint, Rotate, Plus, Turned, OnGrid, Pow2;
    var quadrant := Turned(e.quadrant, g);
    var y1 := Plus(Rotate(LabelPoint(LabelOf(e.framing, g.first, ring1)), quadrant), e.precoder.c);
    u0 := Bit(U0(e, m, e.precoder.c, P.Push(e.precoder, y1).c));
  }

  lemma OffsetParity(u: Point, c: Point)
    requires OnOddGrid(u) && c.re % 2 == 0 && c.im % 2 == 0
    ensures OnOddGrid(Plus(u, c))
    ensures (u.re + c.re + (u.im + c.im)) % 4 == 0 <==> ((u.re + u.im) % 4 == 0) != Parity(c)
  {
    var a, b := Half(c.re), Half(c.im);
    AddTwos(u.re, a);
    AddTwos(u.im, b);
    var h := SumOfOdds(u.re, u.im);
    ParityOfSum(h, a + b);
    assert u.re + c.re + (u.im + c.im) == 2 * h + 2 * (a + b);
  }

  function Half(c: int): (a: int)
    requires c % 2 == 0
    ensures c == 2 * a && a == c / 2
  {
    c / 2
  }

  lemma SumOfOdds(x: int, y: int) returns (h: int)
    requires x % 2 == 1 && y % 2 == 1
    ensures x + y == 2 * h
  {
    h := x / 2 + y / 2 + 1;
  }

  lemma ParityOfSum(h: int, n: int)
    ensures (2 * h + 2 * n) % 4 == 0 <==> (2 * h % 4 == 0) != (n % 2 == 1)
  {
    var k := n / 2;
    assert n == 2 * k + n % 2;
    AddFours(2 * h + 2 * (n % 2), k);
    DoubleModFour(h);
    DoubleModFour(h + 1);
  }

  lemma DoubleModFour(h: int)
    ensures 2 * h % 4 == 2 * (h % 2)
    ensures (h + 1) % 2 == 1 - h % 2
  {
    var k := h / 2;
    assert h == 2 * k + h % 2;
    AddFours(2 * (h % 2), k);
  }

  /** `SymbolParity` by the test the code makes, which the decoder makes too. */
  lemma PairParity(e: Encoder, m: nat, g: Group, ring1: nat, ring2: nat)
    requires RingsFit(e.framing, g, ring1, ring2)
    requires EncoderOk(e)
    ensures e.framing.p > 0 && e.framing.rings >= 1 && PushOk(e.precoder)
    ensures LabelOf(e.framing, g.first, ring1) < QUARTER && LabelOf(e.framing, g.second, ring2) < QUARTER
    ensures var pair := Encode4D(e, m, g, ring1, ring2).pair;
      && OnOddGrid(pair.first) && OnOddGrid(pair.second)
      && ((SubsetOf(pair.first) % 2 == 1) != (SubsetOf(pair.second) % 2 == 1))
        == (Output(e.trellis, e.state) != Inversion(e.framing, m))
    ensures EncoderOk(Encode4D(e, m, g, ring1, ring2).next)
  {
    hide P.Push, P.Sent, P.PrecoderOk, Inversion, Output, SubsetOf, Inputs, Next, LabelOf, LabelPoint, Rotate, Plus,
      Parity, F.FramingOk, OnOddGrid, OnGrid, Turned, Pow2;
    LabelsFit(e, g, ring1, ring2);
    var quadrant := Turned(e.quadrant, g);
    var l1, l2 := LabelOf(e.framing, g.first, ring1), LabelOf(e.framing, g.second, ring2);
    PointParity4D(e.precoder, l1, quadrant);
    var p1 := P.Push(e.precoder, Plus(Rotate(LabelPoint(l1), quadrant), e.precoder.c));
    var u0 := U0(e, m, e.precoder.c, p1.c);
    PointParity4D(p1, l2, quadrant + (2 * Bit(g.i1) + Bit(u0)));
    TurnsAdd(quadrant, g.i1, u0);
    QuadrantBelow(e.quadrant, g);
  }

  lemma InvertsByTable(e: Encoder, m: nat)
    requires EncoderOk(e)
    ensures (e.framing.j == 7 || e.framing.j == 8) && e.framing.p > 0
    ensures Inversion(e.framing, m) == InvertedByTable(e.framing.j, e.framing.p, m)
  {
    hide Inversion, InvertedByTable, P.PrecoderOk, F.Eighth, Pow2;
    InversionIs(e.framing, m);
  }

  /** Whatever c(n) the precoder added, the pair of points has the parity of Y0, inverted where table 12 says. */
  lemma SymbolParity(e: Encoder, m: nat, g: Group, ring1: nat, ring2: nat)
    requires RingsFit(e.framing, g, ring1, ring2)
    requires EncoderOk(e)
    ensures (e.framing.j == 7 || e.framing.j == 8) && e.framing.p > 0 && PushOk(e.precoder)
    ensures LabelOf(e.framing, g.first, ring1) < QUARTER && LabelOf(e.framing, g.second, ring2) < QUARTER
    ensures var pair := Encode4D(e, m, g, ring1, ring2).pair;
      && OnOddGrid(pair.first) && OnOddGrid(pair.second)
      && ((SubsetOf(pair.first) % 2 == 1) != (SubsetOf(pair.second) % 2 == 1))
        == (Output(e.trellis, e.state) != InvertedByTable(e.framing.j, e.framing.p, m))
  {
    hide Encode4D, Inversion, InvertedByTable, Output, SubsetOf, LabelOf, OnOddGrid, P.PrecoderOk, RingsFit,
      F.FramingOk;
    PairParity(e, m, g, ring1, ring2);
    InvertsByTable(e, m);
  }

  lemma QuadrantBelow(quadrant: nat, g: Group)
    ensures Turned(quadrant, g) < 4
  {
  }

  lemma TurnsAdd(quadrant: nat, i1: bool, u0: bool)
    ensures (quadrant + (2 * Bit(i1) + Bit(u0))) % 2 == 1 <==> (quadrant % 2 == 1) != u0
  {
    AddTwos(quadrant + Bit(u0), Bit(i1));
  }

  /** The parity of a point's subset, by its turns and its offset. */
  lemma PointParity4D(s: P.Precoder, l: nat, turns: nat)
    requires P.PrecoderOk(s) && l < QUARTER
    ensures s.modulo > 0 && |s.history| == 3
    ensures var y := Plus(Rotate(LabelPoint(l), turns), s.c);
      && OnOddGrid(y) && P.PrecoderOk(P.Push(s, y))
      && ((SubsetOf(y) % 2 == 1) <==> (turns % 2 == 1) != Parity(s.c))
  {
    hide P.Push, P.PrecoderOk, SubsetOf, LabelPoint, Rotate, Parity, OnOddGrid, P.InConstellation;
    var u := Rotate(LabelPoint(l), turns);
    TurnedInConstellation(l, turns);
    P.PrecoderShape(s);
    P.OffsetIsEven(s);
    OffsetParity(u, s.c);
    P.PushKeeps(s, u);
    SubsetParity(Plus(u, s.c));
  }

  /** Neither point sent for a 4D symbol is over 51 in a component. */
  lemma SymbolBelow(e: Encoder, m: nat, g: Group, ring1: nat, ring2: nat)
    requires e.framing.p > 0 && PushOk(e.precoder) && P.PrecoderOk(e.precoder)
    requires LabelOf(e.framing, g.first, ring1) < QUARTER && LabelOf(e.framing, g.second, ring2) < QUARTER
    ensures var s := Encode4D(e, m, g, ring1, ring2);
      P.Below(s.first, P.MOST_SENT) && P.Below(s.second, P.MOST_SENT)
  {
    hide P.Push, P.PrecoderOk, P.InConstellation, U0, LabelOf, LabelPoint, Rotate, Next, Plus, P.Sent, P.Below;
    var u1 := Rotate(LabelPoint(LabelOf(e.framing, g.first, ring1)), Turned(e.quadrant, g));
    TurnedInConstellation(LabelOf(e.framing, g.first, ring1), Turned(e.quadrant, g));
    var y1 := Plus(u1, e.precoder.c);
    P.PushKeeps(e.precoder, u1);
    NewestBelow(e.precoder, y1);
    var p1 := P.Push(e.precoder, y1);
    var turns := Turned(e.quadrant, g) + (2 * Bit(g.i1) + Bit(U0(e, m, e.precoder.c, p1.c)));
    var u2 := Rotate(LabelPoint(LabelOf(e.framing, g.second, ring2)), turns);
    TurnedInConstellation(LabelOf(e.framing, g.second, ring2), turns);
    P.PrecoderShape(p1);
    P.PushKeeps(p1, u2);
    NewestBelow(p1, Plus(u2, p1.c));
  }

  lemma NewestBelow(s: P.Precoder, y: Point)
    requires s.modulo > 0 && |s.history| == 3 && P.PrecoderOk(P.Push(s, y))
    ensures P.Below(P.Sent(s, y), P.MOST_SENT)
  {
    hide P.Taps, P.RoundDiv, P.Multiple, P.Below, P.Sent;
    assert P.Push(s, y).history[0] == P.Sent(s, y);
  }
}
