/** Whole mapping frames of V.34: what is encoded is what is unmapped, frame after frame. */
module V34Frames {
  import opened Prelude
  import opened BitField
  import opened V34Constellation
  import opened V34Trellis
  import opened V34Mapper
  import opened V34Coder
  import F = V34Framing
  import P = V34Precoder
  import Shell = V34Shell

  predicate GroupsFit(f: F.Framing, groups: seq<Group>, rings: seq<nat>) {
    && |rings| == 2 * |groups|
    && forall j :: 0 <= j < |groups| ==> RingsFit(f, groups[j], rings[2 * j], rings[2 * j + 1])
  }

  /** What leaves the encoder: channel output y(n), sent x(n), and the encoder after it. */
  datatype Run = Run(pairs: seq<Pair>, sent: seq<P.Fixed>, next: Encoder)

  lemma TailFits(f: F.Framing, groups: seq<Group>, rings: seq<nat>)
    requires GroupsFit(f, groups, rings) && groups != []
    ensures RingsFit(f, groups[0], rings[0], rings[1])
    ensures GroupsFit(f, groups[1..], rings[2..])
  {
    hide RingsFit;
    assert RingsFit(f, groups[0], rings[2 * 0], rings[2 * 0 + 1]);
    forall j | 0 <= j < |groups[1..]| ensures RingsFit(f, groups[1..][j], rings[2..][2 * j], rings[2..][2 * j + 1]) {
      assert RingsFit(f, groups[j + 1], rings[2 * (j + 1)], rings[2 * (j + 1) + 1]);
    }
  }

  /** 4D symbols from m on. */
  function EncodeGroups(e: Encoder, m: nat, groups: seq<Group>, rings: seq<nat>): (r: Run)
    requires EncoderOk(e) && GroupsFit(e.framing, groups, rings)
    ensures EncoderOk(r.next)
    ensures r.next.framing == e.framing && r.next.trellis == e.trellis && r.next.frame == e.frame
    ensures |r.pairs| == |groups| && |r.sent| == 2 * |groups|
    decreases |groups|
  {
    hide Encode4D, GroupsFit, EncoderOk, RingsFit, PushOk, LabelOf;
    if groups == [] then Run([], [], e)
    else
      FirstRings(e.framing, groups, rings);
      TailFits(e.framing, groups, rings);
      PairParity(e, m, groups[0], rings[0], rings[1]);
      SymbolKeeps(e, m, groups[0], rings[0], rings[1]);
      var s := Encode4D(e, m, groups[0], rings[0], rings[1]);
      var rest := EncodeGroups(s.next, m + 1, groups[1..], rings[2..]);
      Run([s.pair] + rest.pairs, [s.first, s.second] + rest.sent, rest.next)
  }

  lemma FirstRings(f: F.Framing, groups: seq<Group>, rings: seq<nat>)
    requires GroupsFit(f, groups, rings) && groups != []
    ensures |rings| >= 2
  {
  }

  lemma SymbolKeeps(e: Encoder, m: nat, g: Group, ring1: nat, ring2: nat)
    requires e.framing.p > 0 && PushOk(e.precoder)
    requires LabelOf(e.framing, g.first, ring1) < QUARTER && LabelOf(e.framing, g.second, ring2) < QUARTER
    ensures var next := Encode4D(e, m, g, ring1, ring2).next;
      next.framing == e.framing && next.trellis == e.trellis && next.frame == e.frame
  {
    hide P.Push, Rotate, LabelPoint, Next, U0;
  }

  function UnmapGroups(f: F.Framing, d: Mirror, pairs: seq<Pair>): (us: seq<Unmapped>)
    requires f.rings >= 1 && PushOk(d.precoder)
    ensures |us| == |pairs| && AllInRings(f, us)
    decreases |pairs|
  {
    hide Unmap4D, MirrorAfter;
    if pairs == [] then []
    else
      MirrorOk(d, pairs[0]);
      [Unmap4D(f, d, pairs[0])] + UnmapGroups(f, MirrorAfter(d, pairs[0]), pairs[1..])
  }

  lemma MirrorOk(d: Mirror, pair: Pair)
    requires PushOk(d.precoder)
    ensures PushOk(MirrorAfter(d, pair).precoder)
  {
    hide P.Taps, P.RoundDiv, P.Multiple, UnmapPoint;
  }

  function MirrorRun(d: Mirror, pairs: seq<Pair>): (after: Mirror)
    requires PushOk(d.precoder)
    ensures PushOk(after.precoder)
    decreases |pairs|
  {
    hide MirrorAfter, PushOk;
    if pairs == [] then d
    else
      MirrorOk(d, pairs[0]);
      MirrorRun(MirrorAfter(d, pairs[0]), pairs[1..])
  }

  function GroupsOf(us: seq<Unmapped>): (groups: seq<Group>)
    ensures |groups| == |us|
  {
    if us == [] then [] else [us[0].group] + GroupsOf(us[1..])
  }

  function RingsOf(f: F.Framing, us: seq<Unmapped>): (rings: seq<nat>)
    requires AllInRings(f, us)
    ensures |rings| == 2 * |us| && Shell.AllBelow(f.rings, rings)
  {
    if us == [] then [] else [us[0].ring1, us[0].ring2] + RingsOf(f, us[1..])
  }

  predicate AllInRings(f: F.Framing, us: seq<Unmapped>) {
    forall u :: u in us ==> u.ring1 < f.rings && u.ring2 < f.rings
  }

  lemma {:induction false} GroupsUnmap(e: Encoder, m: nat, groups: seq<Group>, rings: seq<nat>)
    requires EncoderOk(e) && GroupsFit(e.framing, groups, rings)
    ensures e.framing.rings >= 1 && PushOk(MirrorOf(e).precoder)
    ensures var r := EncodeGroups(e, m, groups, rings);
      && GroupsOf(UnmapGroups(e.framing, MirrorOf(e), r.pairs)) == groups
      && RingsOf(e.framing, UnmapGroups(e.framing, MirrorOf(e), r.pairs)) == rings
      && MirrorRun(MirrorOf(e), r.pairs) == MirrorOf(r.next)
    decreases |groups|
  {
    hide Encode4D, GroupsFit, EncoderOk, RingsFit, PushOk, LabelOf, Unmap4D, MirrorAfter;
    PushOkOf(e);
    if groups != [] {
      FirstRings(e.framing, groups, rings);
      TailFits(e.framing, groups, rings);
      PairParity(e, m, groups[0], rings[0], rings[1]);
      SymbolUnmaps(e, m, groups[0], rings[0], rings[1]);
      SymbolKeeps(e, m, groups[0], rings[0], rings[1]);
      var s := Encode4D(e, m, groups[0], rings[0], rings[1]);
      var r := EncodeGroups(e, m, groups, rings);
      GroupsUnmap(s.next, m + 1, groups[1..], rings[2..]);
      assert r.pairs[1..] == EncodeGroups(s.next, m + 1, groups[1..], rings[2..]).pairs;
      var us := UnmapGroups(e.framing, MirrorOf(e), r.pairs);
      assert us[1..] == UnmapGroups(e.framing, MirrorOf(s.next), r.pairs[1..]);
      assert groups == [groups[0]] + groups[1..];
      assert rings == [rings[0], rings[1]] + rings[2..];
    } else {
      NoRings(e.framing, rings);
    }
  }

  lemma NoRings(f: F.Framing, rings: seq<nat>)
    requires GroupsFit(f, [], rings)
    ensures rings == []
  {
  }

  lemma PushOkOf(e: Encoder)
    requires EncoderOk(e)
    ensures PushOk(e.precoder) && F.FramingOk(e.framing) && e.framing.p > 0 && e.framing.rings >= 1
  {
  }

  // A mapping frame.

  /** Bits for the next mapping frame, b or b - 1. */
  predicate FrameFull(f: F.Framing, frame: nat, bits: Bits)
    requires f.p > 0
  {
    |bits| == F.BitsIn(f, frame)
  }

  predicate HighFrame(f: F.Framing, frame: nat)
    requires f.p > 0
  {
    F.High(f, frame % f.p)
  }

  /** The eight rings of a mapping frame. */
  function RingsFor(f: F.Framing, r0: nat): (rings: seq<nat>)
    requires f.rings >= 1 && (f.b > 12 ==> r0 < Shell.Values(Shell.New(f.rings)))
    ensures |rings| == 8 && Shell.AllBelow(f.rings, rings)
  {
    if f.b <= 12 then [0, 0, 0, 0, 0, 0, 0, 0] else Shell.Map(Shell.New(f.rings), r0)
  }

  lemma EighthIsPower(m: nat)
    ensures F.Eighth(m) == Shell.Power(m, 8)
  {
    hide Shell.Power;
    Shell.EighthPower(m);
  }

  /** K bits are never too many for the rings. */
  lemma ValueFits(f: F.Framing, v: nat, n: nat)
    requires F.FramingOk(f) && n <= f.k && v < Pow2(n)
    ensures v < Shell.Values(Shell.New(f.rings))
  {
    hide F.Eighth, Pow2, Shell.New, Shell.Values, Shell.Power;
    Pow2Grows(n, f.k);
    EighthIsPower(f.rings);
    Shell.ValuesAre(Shell.New(f.rings)) by {
      ShellRings(f.rings);
    }
    ShellRings(f.rings);
  }

  lemma ShellRings(rings: nat)
    requires rings >= 1
    ensures Shell.New(rings).rings == rings && Shell.MapperOk(Shell.New(rings))
  {
    hide Shell.PairCounts, Shell.Convolve, Shell.Starts;
  }

  lemma ParseFits(f: F.Framing, high: bool, bits: Bits)
    requires F.FramingOk(f) && BitsFit(f, high, bits) && |bits| >= 8
    ensures f.rings >= 1
    ensures var parsed := Parse(f, high, bits);
      && (f.b > 12 ==> parsed.r0 < Shell.Values(Shell.New(f.rings)))
      && GroupsFit(f, parsed.groups, RingsFor(f, parsed.r0))
  {
    hide Shell.Map, Shell.New, Shell.Values, ParseFew, ParseGroups, FieldOf, Pow2, F.Eighth;
    var parsed := Parse(f, high, bits);
    if f.b <= 12 {
      FewFit(bits, |bits| - 8, 0);
    } else {
      FrameFits(f, high, bits);
      var shellBits := ShellBits(f, high);
      ValueFits(f, parsed.r0, shellBits);
      HalvesFit(bits[shellBits..], f.q, 4);
    }
    var rings := RingsFor(f, parsed.r0);
    forall j | 0 <= j < 4 ensures RingsFit(f, parsed.groups[j], rings[2 * j], rings[2 * j + 1]) {
      assert parsed.groups[j] in parsed.groups;
    }
  }

  lemma FullFits(f: F.Framing, frame: nat, bits: Bits)
    requires F.FramingOk(f) && FrameFull(f, frame, bits)
    ensures BitsFit(f, HighFrame(f, frame), bits) && |bits| >= 8
  {
    hide F.High;
    F.FewestBits(f, frame);
  }

  /** One mapping frame: its four pairs, its eight x(n), and the encoder ready for another. */
  function Encode(e: Encoder, bits: Bits): (r: Run)
    requires EncoderOk(e) && F.FramingOk(e.framing) && FrameFull(e.framing, e.frame, bits)
    ensures EncoderOk(r.next) && F.FramingOk(r.next.framing)
    ensures r.next.framing == e.framing && r.next.trellis == e.trellis && r.next.frame == e.frame + 1
    ensures |r.pairs| == 4 && |r.sent| == 8
  {
    hide F.FramingOk, FrameFull, HighFrame, Parse, GroupsFit, RingsFor, EncodeGroups, Shell.Values, Shell.New;
    FullFits(e.framing, e.frame, bits);
    ParseFits(e.framing, HighFrame(e.framing, e.frame), bits);
    var parsed := Parse(e.framing, HighFrame(e.framing, e.frame), bits);
    var r := EncodeGroups(e, 4 * e.frame, parsed.groups, RingsFor(e.framing, parsed.r0));
    r.(next := r.next.(frame := e.frame + 1))
  }

  /** The bits of four decided 4D symbols, whatever they are. */
  function Unmap(f: F.Framing, d: Mirror, frame: nat, pairs: seq<Pair>): Bits
    requires F.FramingOk(f) && PushOk(d.precoder) && |pairs| == 4
  {
    hide F.FramingOk, PushOk, UnmapGroups, RingsOf, Shell.New, Shell.Unmap, Shell.MapperOk;
    FramingParts(f);
    ShellRings(f.rings);
    HighBits(f, HighFrame(f, frame), frame);
    var us := UnmapGroups(f, d, pairs);
    var r0 := if f.b <= 12 then 0 else Shell.Unmap(Shell.New(f.rings), RingsOf(f, us));
    Serialize(f, HighFrame(f, frame), Parsed(r0, GroupsOf(us)))
  }

  lemma FramingParts(f: F.Framing)
    requires F.FramingOk(f)
    ensures f.p > 0 && f.rings >= 1
  {
  }

  lemma HighBits(f: F.Framing, high: bool, frame: nat)
    requires F.FramingOk(f) && high == F.High(f, frame % f.p)
    ensures f.b <= 12 ==> f.b >= if high then 8 else 9
    ensures f.b > 12 ==> ShellBits(f, high) >= 0
  {
    hide F.High;
    F.FewestBits(f, frame);
  }

  /** One mapping frame comes back bit for bit, with the receiver's mirror in step after it. */
  lemma FrameUnmaps(e: Encoder, bits: Bits)
    requires EncoderOk(e) && F.FramingOk(e.framing) && FrameFull(e.framing, e.frame, bits)
    ensures PushOk(MirrorOf(e).precoder)
    ensures var r := Encode(e, bits);
      && Unmap(e.framing, MirrorOf(e), e.frame, r.pairs) == bits
      && MirrorRun(MirrorOf(e), r.pairs) == MirrorOf(r.next)
  {
    hide F.FramingOk, FrameFull, HighFrame, Parse, Serialize, GroupsFit, EncodeGroups, EncoderOk, PushOk, Shell.Values,
      Shell.New, Shell.Map, Shell.Unmap, UnmapGroups, GroupsOf, RingsOf, MirrorRun, Shell.MapperOk;
    PushOkOf(e);
    var f, high := e.framing, HighFrame(e.framing, e.frame);
    FullFits(f, e.frame, bits);
    ParseFits(f, high, bits);
    ParseInverts(f, high, bits);
    var parsed := Parse(f, high, bits);
    var rings := RingsFor(f, parsed.r0);
    GroupsUnmap(e, 4 * e.frame, parsed.groups, rings);
    ShellRings(f.rings);
    if f.b > 12 {
      Shell.UnmapInverts(Shell.New(f.rings), parsed.r0);
    } else {
      NoShell(f, high, bits);
    }
  }

  lemma NoShell(f: F.Framing, high: bool, bits: Bits)
    requires F.FramingOk(f) && BitsFit(f, high, bits) && |bits| >= 8 && f.b <= 12
    ensures Parse(f, high, bits).r0 == 0
  {
  }

  // Any number of mapping frames.

  predicate FramesFull(f: F.Framing, frame: nat, frames: seq<Bits>)
    decreases |frames|
  {
    f.p > 0 && (frames != [] ==> FrameFull(f, frame, frames[0]) && FramesFull(f, frame + 1, frames[1..]))
  }

  /** One run followed by another. */
  function Then(a: Run, b: Run): (r: Run)
    ensures |r.pairs| == |a.pairs| + |b.pairs| && |r.sent| == |a.sent| + |b.sent|
  {
    Run(a.pairs + b.pairs, a.sent + b.sent, b.next)
  }

  function EncodeAll(e: Encoder, frames: seq<Bits>): (r: Run)
    requires EncoderOk(e) && FramesFull(e.framing, e.frame, frames)
    ensures EncoderOk(r.next) && r.next.framing == e.framing && r.next.trellis == e.trellis
    ensures r.next.frame == e.frame + |frames|
    ensures |r.pairs| == 4 * |frames| && |r.sent| == 8 * |frames|
    decreases |frames|
  {
    hide EncoderOk, F.FramingOk, FrameFull, Encode;
    if frames == [] then Run([], [], e)
    else
      PushOkOf(e);
      var first := Encode(e, frames[0]);
      Then(first, EncodeAll(first.next, frames[1..]))
  }

  lemma EncodesFirst(e: Encoder, frames: seq<Bits>)
    requires EncoderOk(e) && FramesFull(e.framing, e.frame, frames) && frames != []
    ensures F.FramingOk(e.framing) && e.framing.p > 0 && FrameFull(e.framing, e.frame, frames[0])
    ensures var first := Encode(e, frames[0]);
      && FramesFull(first.next.framing, first.next.frame, frames[1..])
      && EncodeAll(e, frames) == Then(first, EncodeAll(first.next, frames[1..]))
  {
    hide EncoderOk, F.FramingOk, FrameFull, Encode;
    PushOkOf(e);
  }

  lemma EncodesNothing(e: Encoder)
    requires EncoderOk(e)
    ensures e.framing.p > 0 && F.FramingOk(e.framing) && FramesFull(e.framing, e.frame, [])
    ensures EncodeAll(e, []) == Run([], [], e)
  {
    hide EncoderOk, F.FramingOk;
    PushOkOf(e);
  }

  lemma FullOne(f: F.Framing, frame: nat, bits: Bits, rest: seq<Bits>)
    requires f.p > 0 && FrameFull(f, frame, bits) && FramesFull(f, frame + 1, rest)
    ensures FramesFull(f, frame, [bits] + rest)
  {
    hide FrameFull;
    assert ([bits] + rest)[1..] == rest;
  }

  lemma EncodesOne(e: Encoder, bits: Bits)
    requires EncoderOk(e) && e.framing.p > 0 && FrameFull(e.framing, e.frame, bits)
    ensures F.FramingOk(e.framing) && FramesFull(e.framing, e.frame, [bits])
    ensures EncodeAll(e, [bits]) == Encode(e, bits)
  {
    hide EncoderOk, F.FramingOk, FrameFull, Encode, EncodeAll, FramesFull;
    EncodesNothing(e);
    var first := Encode(e, bits);
    EncodesNothing(first.next);
    FullOne(e.framing, e.frame, bits, []);
    assert [bits] + [] == [bits] && [bits][1..] == [];
    EncodesFirst(e, [bits]);
    assert first.pairs + [] == first.pairs && first.sent + [] == first.sent;
  }

  /** Frames, and then more of them. */
  function EncodeParts(e: Encoder, a: seq<Bits>, at: nat, b: seq<Bits>): Run
    requires FramesFull(e.framing, e.frame, a) && FramesFull(e.framing, at, b) && at == e.frame + |a| && EncoderOk(e)
  {
    hide EncoderOk, F.FramingOk, FrameFull, EncodeAll, FramesFull;
    var first := EncodeAll(e, a);
    Then(first, EncodeAll(first.next, b))
  }

  /** Frames encoded in parts are encoded as if in one. */
  lemma {:induction false} EncodesOn(e: Encoder, a: seq<Bits>, at: nat, b: seq<Bits>)
    requires FramesFull(e.framing, e.frame, a) && FramesFull(e.framing, at, b) && at == e.frame + |a| && EncoderOk(e)
    ensures FramesFull(e.framing, e.frame, a + b)
    ensures EncodeAll(e, a + b) == EncodeParts(e, a, at, b)
    decreases |a|
  {
    hide EncoderOk, F.FramingOk, FrameFull, Encode, EncodeAll, FramesFull;
    if a == [] {
      EncodesNothing(e);
      assert a + b == b;
      var r := EncodeAll(e, b);
      assert [] + r.pairs == r.pairs && [] + r.sent == r.sent;
    } else {
      EncodesFirst(e, a);
      var first := Encode(e, a[0]);
      EncodesOn(first.next, a[1..], at, b);
      var rest := EncodeAll(first.next, a[1..]);
      ThenAssociates(first, rest, EncodeAll(rest.next, b));
      var more := a + b;
      assert more[1..] == a[1..] + b && more == [a[0]] + more[1..];
      FullOne(e.framing, e.frame, a[0], more[1..]);
      EncodesFirst(e, more);
    }
  }

  lemma ThenAssociates(a: Run, b: Run, c: Run)
    ensures Then(Then(a, b), c) == Then(a, Then(b, c))
  {
    Associates(a.pairs, b.pairs, c.pairs);
    Associates(a.sent, b.sent, c.sent);
  }

  /** The bits of all whole mapping frames from `frame` on. */
  function UnmapAll(f: F.Framing, d: Mirror, frame: nat, pairs: seq<Pair>): Bits
    requires F.FramingOk(f) && PushOk(d.precoder)
    decreases |pairs|
  {
    hide F.FramingOk, PushOk, Unmap, MirrorRun;
    if |pairs| < 4 then []
    else Unmap(f, d, frame, pairs[..4]) + UnmapAll(f, MirrorRun(d, pairs[..4]), frame + 1, pairs[4..])
  }

  /** Frame after frame, through quadrants, rings, offsets, and high and low frames, the bits come back. */
  lemma {:induction false} AllUnmap(e: Encoder, frames: seq<Bits>)
    requires EncoderOk(e) && F.FramingOk(e.framing) && FramesFull(e.framing, e.frame, frames)
    ensures PushOk(MirrorOf(e).precoder)
    ensures UnmapAll(e.framing, MirrorOf(e), e.frame, EncodeAll(e, frames).pairs) == Flatten(frames)
    decreases |frames|
  {
    hide F.FramingOk, FrameFull, EncoderOk, PushOk, Encode, Unmap, MirrorRun;
    PushOkOf(e);
    if frames != [] {
      var first := Encode(e, frames[0]);
      FrameUnmaps(e, frames[0]);
      AllUnmap(first.next, frames[1..]);
      var pairs := EncodeAll(e, frames).pairs;
      assert pairs[..4] == first.pairs && pairs[4..] == EncodeAll(first.next, frames[1..]).pairs;
    }
  }
}
