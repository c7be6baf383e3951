/** The V.34 data mode encoder as an object that changes, against its specification. */
module V34EncoderClass {
  import opened Prelude
  import opened BitField
  import opened V34Constellation
  import opened V34Trellis
  import opened V34Mapper
  import opened V34Coder
  import opened V34Frames
  import opened V34Nearest
  import opened V34PrecoderClass
  import F = V34Framing
  import N = V34Warp
  import P = V34Precoder
  import Shell = V34Shell
  import W = V34Whitener

  /** The part that a value falls in and its place there, as `Shell.Largest` has them. */
  method Largest(g: seq<nat>, total: nat, value: nat) returns (n: nat, left: nat)
    requires value < Shell.Products(g, total, total + 1)
    ensures (n, left) == Shell.Largest(g, total, 0, value)
    ensures n <= total && Shell.Products(g, total, n) + left == value && left < Shell.Term(g, total, n)
  {
    hide Shell.Term;
    n, left := 0, value;
    Shell.LargestSplits(g, total, 0, value);
    while n < total && left >= Shell.Term(g, total, n)
      invariant n <= total && Shell.Products(g, total, n) + left == value
      invariant Shell.Largest(g, total, n, left) == Shell.Largest(g, total, 0, value)
    {
      left := left - Shell.Term(g, total, n);
      n := n + 1;
    }
  }

  /** All that makes a 4D symbol well defined, and the encoder after it sound. */
  lemma SymbolReady(e: V34Coder.Encoder, m: nat, g: Group, ring1: nat, ring2: nat)
    requires EncoderOk(e) && RingsFit(e.framing, g, ring1, ring2)
    ensures e.framing.p > 0 && e.framing.rings >= 1 && PushOk(e.precoder)
    ensures LabelOf(e.framing, g.first, ring1) < QUARTER && LabelOf(e.framing, g.second, ring2) < QUARTER
    ensures EncoderOk(Encode4D(e, m, g, ring1, ring2).next)
    ensures (e.framing.j == 7 || e.framing.j == 8)
      && Inversion(e.framing, m) == InvertedByTable(e.framing.j, e.framing.p, m)
  {
    hide Encode4D, Inversion, InvertedByTable, Output, SubsetOf, LabelOf, OnOddGrid, P.PrecoderOk, RingsFit, EncoderOk;
    InvertsByTable(e, m);
    LabelsFit(e, g, ring1, ring2);
    PairParity(e, m, g, ring1, ring2);
  }

  class Encoder {
    const framing: F.Framing
    const trellis: Trellis
    var frame: nat
    var quadrant: nat
    var state: nat
    const precoder: Precoder
    const nonlinear: N.Nonlinear
    ghost const precoding: P.Precoding
    /** The bits of every mapping frame so far, and every x(n) made of them. */
    ghost var taken: seq<Bits>
    ghost var sent: seq<P.Fixed>

    ghost function View(): V34Coder.Encoder
      reads this, precoder
    {
      V34Coder.Encoder(framing, trellis, frame, quadrant, state, precoder.View())
    }

    ghost predicate Sound()
      reads this, precoder
    {
      precoder.Valid() && EncoderOk(View()) && F.FramingOk(framing)
    }

    /** It has encoded all it took as one run would. */
    ghost predicate Valid()
      reads this, precoder
    {
      Sound() && Encoded(V34Coder.New(framing, trellis, precoding), taken, sent, View())
    }

    constructor (framing: F.Framing, trellis: Trellis, precoding: P.Precoding, nonlinear: N.Nonlinear)
      requires F.FramingOk(framing)
      ensures View() == V34Coder.New(framing, trellis, precoding) && Valid() && fresh(precoder)
      ensures this.framing == framing && this.trellis == trellis && this.precoding == precoding
      ensures this.nonlinear == nonlinear && taken == [] && sent == []
    {
      hide F.FramingOk, EncoderOk;
      this.framing, this.trellis, this.precoding, this.nonlinear := framing, trellis, precoding, nonlinear;
      frame, quadrant, state, taken, sent := 0, 0, 0, [], [];
      precoder := new Precoder(precoding, F.PrecoderModulo(framing));
      new;
      V34Coder.NewIsOk(framing, trellis, precoding);
      NothingEncoded(framing, trellis, precoding);
    }

    /** The two x(n) of `Encode4D` and the encoder it leaves, in place. */
    method Symbol(m: nat, g: Group, ring1: nat, ring2: nat) returns (first: P.Fixed, second: P.Fixed)
      requires RingsFit(framing, g, ring1, ring2)
      requires Sound()
      modifies this`quadrant, this`state, precoder
      ensures framing.p > 0 && PushOk(old(precoder.View()))
      ensures LabelOf(framing, g.first, ring1) < QUARTER && LabelOf(framing, g.second, ring2) < QUARTER
      ensures var s := Encode4D(old(View()), m, g, ring1, ring2);
        View() == s.next && first == s.first && second == s.second
      ensures (framing.j == 7 || framing.j == 8) && Inversion(framing, m) == InvertedByTable(framing.j, framing.p, m)
      ensures Sound()
    {
      hide P.Push, P.Sent, P.PrecoderOk, F.FramingOk, RingsFit, LabelOf, LabelPoint, Rotate, Inversion, SubsetOf, Next,
        Inputs, Parity, Output, InvertedByTable, EncoderOk, PushOk;
      ghost var e := View();
      SymbolReady(e, m, g, ring1, ring2);
      quadrant := (quadrant + Bit(g.i2) + 2 * Bit(g.i3)) % 4;
      var u1 := Rotate(LabelPoint(LabelOf(framing, g.first, ring1)), quadrant);
      var c1 := precoder.c;
      var y1 := Plus(u1, c1);
      first := precoder.Push(y1);
      var c2 := precoder.c;
      var c0 := Parity(c1) != Parity(c2);
      var u0 := (Output(trellis, state) != c0) != Inversion(framing, m);
      var turns := quadrant + 2 * Bit(g.i1) + Bit(u0);
      var u2 := Rotate(LabelPoint(LabelOf(framing, g.second, ring2)), turns);
      var y2 := Plus(u2, c2);
      second := precoder.Push(y2);
      state := Next(trellis, state, Inputs(SubsetOf(y1), SubsetOf(y2)));
    }

    /** As many as `V34Framing.BitsIn` has for this frame. */
    method BitCount() returns (n: int)
      requires Sound()
      ensures framing.p > 0 && n == F.BitsIn(framing, frame)
    {
      hide F.High, EncoderOk;
      n := framing.b - if F.High(framing, frame % framing.p) then 0 else 1;
    }

    /** Eight more points, which are eight more x(n) warped if they are to be; what was sent before stands. */
    method Encode(bits: Bits) returns (out: seq<Complex>)
      requires framing.p > 0 && FrameFull(framing, frame, bits)
      requires Valid()
      modifies this, precoder
      ensures Valid() && taken == old(taken) + [bits]
      ensures |out| == 8 && |sent| == |old(sent)| + 8 && old(sent) <= sent
      ensures out == N.WarpAll(nonlinear, sent[|old(sent)|..])
    {
      hide F.FramingOk, EncoderOk, FrameFull, V34Frames.Encode, Encoded, N.Warped, W.ToComplex;
      EncodedMore(V34Coder.New(framing, trellis, precoding), taken, sent, View(), bits);
      ghost var made;
      out, made := EncodeFrame(bits);
      taken, sent := taken + [bits], sent + made;
      assert sent[|old(sent)|..] == made;
    }

    method EncodeFrame(bits: Bits) returns (out: seq<Complex>, ghost made: seq<P.Fixed>)
      requires framing.p > 0 && FrameFull(framing, frame, bits)
      requires Sound()
      modifies this`frame, this`quadrant, this`state, precoder
      ensures Sound()
      ensures var r := V34Frames.Encode(old(View()), bits);
        View() == r.next && made == r.sent
      ensures out == N.WarpAll(nonlinear, made)
    {
      hide P.PrecoderOk, F.FramingOk, RingsFit, Parse, GroupsFit, RingsFor, EncodeGroups, Encode4D, EncoderOk,
        FrameFull, HighFrame, LabelOf, PushOk, Shell.Values, Shell.New, N.Warped, W.ToComplex, N.WarpAll;
      ghost var e := View();
      FullFits(framing, frame, bits);
      ParseFits(framing, HighFrame(framing, frame), bits);
      var parsed := Parse(framing, HighFrame(framing, frame), bits);
      var rings := RingsFor(framing, parsed.r0);
      var groups := parsed.groups;
      ghost var whole := EncodeGroups(e, 4 * frame, groups, rings);
      out, made := [], [];
      for j := 0 to 4
        invariant Sound() && frame == e.frame
        invariant GroupsFit(framing, groups[j..], rings[2 * j..])
        invariant out == N.WarpAll(nonlinear, made)
        invariant var rest := EncodeGroups(View(), 4 * frame + j, groups[j..], rings[2 * j..]);
          rest.next == whole.next && made + rest.sent == whole.sent
      {
        ghost var before := made;
        GroupsStep(View(), 4 * frame + j, groups, rings, j);
        var first, second := Symbol(4 * frame + j, groups[j], rings[2 * j], rings[2 * j + 1]);
        N.WarpsOn(nonlinear, made, first, second);
        out := out + [N.Warped(nonlinear, W.ToComplex(first)), N.Warped(nonlinear, W.ToComplex(second))];
        made := made + [first, second];
        ghost var rest := EncodeGroups(View(), 4 * frame + (j + 1), groups[j + 1..], rings[2 * (j + 1)..]);
        Associates(before, [first, second], rest.sent);
      }
      GroupsEnd(View(), 4 * frame + 4, groups, rings);
      frame := frame + 1;
      NextFrame(whole.next);
    }
  }

  /** An encoder that began at `start` and took just these frames. */
  ghost predicate Encoded(start: V34Coder.Encoder, taken: seq<Bits>, sent: seq<P.Fixed>, e: V34Coder.Encoder) {
    && EncoderOk(start) && FramesFull(start.framing, start.frame, taken)
    && sent == EncodeAll(start, taken).sent && e == EncodeAll(start, taken).next
  }

  lemma NothingEncoded(f: F.Framing, t: Trellis, h: P.Precoding)
    requires F.FramingOk(f)
    ensures Encoded(V34Coder.New(f, t, h), [], [], V34Coder.New(f, t, h))
  {
    hide F.FramingOk, EncoderOk;
    V34Coder.NewIsOk(f, t, h);
    PushOkOf(V34Coder.New(f, t, h));
  }

  lemma EncodedMore(
      start: V34Coder.Encoder, taken: seq<Bits>, sent: seq<P.Fixed>, e: V34Coder.Encoder, bits: Bits)
    requires Encoded(start, taken, sent, e) && EncoderOk(e) && F.FramingOk(e.framing)
    requires e.framing.p > 0 && FrameFull(e.framing, e.frame, bits)
    ensures var r := V34Frames.Encode(e, bits);
      |r.sent| == 8 && Encoded(start, taken + [bits], sent + r.sent, r.next)
  {
    hide F.FramingOk, EncoderOk, FrameFull, FramesFull, V34Frames.Encode, EncodeAll;
    EncodesOne(e, bits);
    EncodesOn(start, taken, e.frame, [bits]);
  }

  /** One 4D symbol of a mapping frame, and those after it. */
  lemma GroupsStep(e: V34Coder.Encoder, m: nat, groups: seq<Group>, rings: seq<nat>, j: nat)
    requires j < |groups| && |rings| == 2 * |groups|
    requires EncoderOk(e) && GroupsFit(e.framing, groups[j..], rings[2 * j..])
    ensures RingsFit(e.framing, groups[j], rings[2 * j], rings[2 * j + 1])
    ensures e.framing.p > 0 && PushOk(e.precoder)
    ensures LabelOf(e.framing, groups[j].first, rings[2 * j]) < QUARTER
    ensures LabelOf(e.framing, groups[j].second, rings[2 * j + 1]) < QUARTER
    ensures GroupsFit(e.framing, groups[j + 1..], rings[2 * (j + 1)..])
    ensures var s := Encode4D(e, m, groups[j], rings[2 * j], rings[2 * j + 1]);
      && EncoderOk(s.next) && s.next.framing == e.framing && s.next.frame == e.frame
      && var r := EncodeGroups(e, m, groups[j..], rings[2 * j..]);
      var rest := EncodeGroups(s.next, m + 1, groups[j + 1..], rings[2 * (j + 1)..]);
      r.next == rest.next && r.sent == [s.first, s.second] + rest.sent
  {
    hide Encode4D, GroupsFit, EncoderOk, RingsFit, PushOk, LabelOf;
    FirstRings(e.framing, groups[j..], rings[2 * j..]);
    TailFits(e.framing, groups[j..], rings[2 * j..]);
    assert groups[j..][1..] == groups[j + 1..] && rings[2 * j..][2..] == rings[2 * (j + 1)..];
    PairParity(e, m, groups[j], rings[2 * j], rings[2 * j + 1]);
    SymbolKeeps(e, m, groups[j], rings[2 * j], rings[2 * j + 1]);
  }

  lemma GroupsEnd(e: V34Coder.Encoder, m: nat, groups: seq<Group>, rings: seq<nat>)
    requires EncoderOk(e) && |rings| == 2 * |groups| && GroupsFit(e.framing, groups[|groups|..], rings[2 * |groups|..])
    ensures EncodeGroups(e, m, groups[|groups|..], rings[2 * |groups|..]) == Run([], [], e)
  {
    hide Encode4D, GroupsFit, EncoderOk;
  }

  lemma NextFrame(e: V34Coder.Encoder)
    requires EncoderOk(e)
    ensures EncoderOk(e.(frame := e.frame + 1))
  {
  }
}
