/** V.34 data mode end to end: what is encoded, sent and heard with little noise is decoded bit for bit. */
module V34RoundTrip {
  import opened Prelude
  import opened BitField
  import opened V34Constellation
  import opened V34Trellis
  import opened V34Nearest
  import opened V34Mapper
  import opened V34Coder
  import opened V34Frames
  import opened V34Viterbi
  import opened V34Paths
  import F = V34Framing
  import P = V34Precoder
  import W = V34Whitener
  import N = V34Warp

  // What is encoded is a path that the decoder searches.

  lemma SymbolBranches(e: Encoder, m: nat, g: Group, ring1: nat, ring2: nat)
    requires RingsFit(e.framing, g, ring1, ring2)
    requires EncoderOk(e)
    ensures e.framing.p > 0 && PushOk(e.precoder)
    ensures LabelOf(e.framing, g.first, ring1) < QUARTER && LabelOf(e.framing, g.second, ring2) < QUARTER
    ensures var s := Encode4D(e, m, g, ring1, ring2);
      Branch(e.trellis, Inversion(e.framing, m), e.state, s.pair, s.next.state)
  {
    hide SubsetOf, Inputs, Next, Output, Inversion, P.Push, P.Sent, LabelPoint, Rotate, U0, OnOddGrid, Plus;
    PairParity(e, m, g, ring1, ring2);
  }

  lemma PathContinues(t: Trellis, f: F.Framing, path: seq<Pair>, pair: Pair, to: nat)
    requires f.p > 0 && Allowed(t, f, path)
    requires Branch(t, Inversion(f, |path|), EndState(t, path), pair, to)
    ensures Allowed(t, f, path + [pair]) && EndState(t, path + [pair]) == to
  {
    hide Inversion, Branch;
    BranchEnds(t, Inversion(f, |path|), EndState(t, path), pair, to);
    assert (path + [pair])[..|path|] == path;
  }

  lemma {:induction false} GroupsAreAllowed(
      e: Encoder, path: seq<Pair>, groups: seq<Group>, rings: seq<nat>)
    requires EncoderOk(e) && GroupsFit(e.framing, groups, rings)
    requires e.framing.p > 0 && Allowed(e.trellis, e.framing, path) && EndState(e.trellis, path) == e.state
    ensures var r := EncodeGroups(e, |path|, groups, rings);
      && Allowed(e.trellis, e.framing, path + r.pairs)
      && EndState(e.trellis, path + r.pairs) == r.next.state
    decreases |groups|
  {
    hide Encode4D, GroupsFit, EncoderOk, RingsFit, PushOk, LabelOf, Allowed, EndState, Branch, Inversion;
    if groups == [] {
      assert path + [] == path;
    } else {
      FirstRings(e.framing, groups, rings);
      TailFits(e.framing, groups, rings);
      SymbolBranches(e, |path|, groups[0], rings[0], rings[1]);
      PairParity(e, |path|, groups[0], rings[0], rings[1]);
      SymbolKeeps(e, |path|, groups[0], rings[0], rings[1]);
      var s := Encode4D(e, |path|, groups[0], rings[0], rings[1]);
      PathContinues(e.trellis, e.framing, path, s.pair, s.next.state);
      GroupsAreAllowed(s.next, path + [s.pair], groups[1..], rings[2..]);
      var rest := EncodeGroups(s.next, |path| + 1, groups[1..], rings[2..]);
      assert path + ([s.pair] + rest.pairs) == path + [s.pair] + rest.pairs;
    }
  }

  lemma FrameIsAllowed(e: Encoder, path: seq<Pair>, bits: Bits)
    requires EncoderOk(e) && F.FramingOk(e.framing) && FrameFull(e.framing, e.frame, bits)
    requires |path| == 4 * e.frame && Allowed(e.trellis, e.framing, path) && EndState(e.trellis, path) == e.state
    ensures var r := Encode(e, bits);
      && Allowed(e.trellis, e.framing, path + r.pairs)
      && EndState(e.trellis, path + r.pairs) == r.next.state
  {
    hide F.FramingOk, FrameFull, HighFrame, Parse, GroupsFit, RingsFor, EncodeGroups, Allowed, EndState, EncoderOk;
    PushOkOf(e);
    FullFits(e.framing, e.frame, bits);
    ParseFits(e.framing, HighFrame(e.framing, e.frame), bits);
    var parsed := Parse(e.framing, HighFrame(e.framing, e.frame), bits);
    GroupsAreAllowed(e, path, parsed.groups, RingsFor(e.framing, parsed.r0));
  }

  /** Whatever is encoded is among the paths searched: in exact arithmetic it is there at distance 0. */
  lemma {:induction false} EncodedIsAllowed(e: Encoder, path: seq<Pair>, frames: seq<Bits>)
    requires EncoderOk(e) && F.FramingOk(e.framing) && FramesFull(e.framing, e.frame, frames)
    requires |path| == 4 * e.frame && Allowed(e.trellis, e.framing, path) && EndState(e.trellis, path) == e.state
    ensures Allowed(e.trellis, e.framing, path + EncodeAll(e, frames).pairs)
    decreases |frames|
  {
    hide F.FramingOk, FrameFull, EncoderOk, Allowed, EndState, Encode;
    if frames == [] {
      assert path + [] == path;
    } else {
      PushOkOf(e);
      var first := Encode(e, frames[0]);
      FrameIsAllowed(e, path, frames[0]);
      EncodedIsAllowed(first.next, path + first.pairs, frames[1..]);
      var rest := EncodeAll(first.next, frames[1..]);
      assert path + (first.pairs + rest.pairs) == path + first.pairs + rest.pairs;
    }
  }

  // The decoder, whose window has no more than the decisions of one mapping frame.

  datatype Decoder = Decoder(window: Window, framesOut: nat, mirror: Mirror, bits: Bits)

  function StartMirror(f: F.Framing, h: P.Precoding): Mirror {
    Mirror(0, P.New(h, F.PrecoderModulo(f)))
  }

  predicate DecoderOk(t: Trellis, d: Decoder) {
    WindowOk(t, d.window) && PushOk(d.mirror.precoder) && |d.window.decided| < 4
  }

  function NewDecoder(t: Trellis, f: F.Framing, h: P.Precoding): (d: Decoder)
    ensures DecoderOk(t, d)
  {
    Decoder(Start(t), 0, StartMirror(f, h), [])
  }

  lemma DecidesOne(t: Trellis, f: F.Framing, w: Window, r: Received)
    requires f.p > 0 && WindowOk(t, w)
    ensures |w.decided| <= |Take(t, f, w, r).decided| <= |w.decided| + 1
  {
    hide Fill, Best, Walk;
  }

  /** One received 4D symbol, and the bits of a mapping frame when its fourth is decided. */
  function Decode4D(t: Trellis, f: F.Framing, d: Decoder, r: Received): (after: Decoder)
    requires F.FramingOk(f) && DecoderOk(t, d)
    ensures DecoderOk(t, after)
  {
    hide F.FramingOk, Take, WindowOk, Unmap, MirrorRun, PushOk;
    FramingParts(f);
    DecidesOne(t, f, d.window, r);
    var w := Take(t, f, d.window, r);
    if |w.decided| == 4 then
      Cleared(t, w);
      Decoder(
        w.(decided := []), d.framesOut + 1, MirrorRun(d.mirror, w.decided),
        d.bits + Unmap(f, d.mirror, d.framesOut, w.decided))
    else d.(window := w)
  }

  lemma Cleared(t: Trellis, w: Window)
    requires WindowOk(t, w)
    ensures WindowOk(t, w.(decided := []))
  {
  }

  function DecodeAll(t: Trellis, f: F.Framing, h: P.Precoding, log: seq<Received>): (d: Decoder)
    requires F.FramingOk(f)
    ensures DecoderOk(t, d)
    decreases |log|
  {
    if log == [] then NewDecoder(t, f, h) else Decode4D(t, f, DecodeAll(t, f, h, log[..|log| - 1]), log[|log| - 1])
  }

  // The bits out are those of all the decisions.

  lemma TakeForgets(t: Trellis, f: F.Framing, w: Window, decided: seq<Pair>, r: Received)
    requires f.p > 0 && WindowOk(t, w)
    ensures WindowOk(t, w.(decided := decided))
    ensures var all, some := Take(t, f, w, r), Take(t, f, w.(decided := decided), r);
      && some == all.(decided := some.decided)
      && w.decided <= all.decided
      && some.decided == decided + all.decided[|w.decided|..]
  {
    hide Fill, Best, Walk, Inversion, FloorOf;
  }

  lemma {:induction false} MirrorAppends(d: Mirror, a: seq<Pair>, b: seq<Pair>)
    requires PushOk(d.precoder)
    ensures PushOk(MirrorRun(d, a).precoder)
    ensures MirrorRun(d, a + b) == MirrorRun(MirrorRun(d, a), b)
    decreases |a|
  {
    hide MirrorAfter, PushOk;
    if a == [] {
      assert a + b == b;
    } else {
      MirrorOk(d, a[0]);
      MirrorAppends(MirrorAfter(d, a[0]), a[1..], b);
      assert (a + b)[1..] == a[1..] + b;
    }
  }

  lemma {:induction false} UnmapAppends(f: F.Framing, d: Mirror, frame: nat, a: seq<Pair>, four: seq<Pair>)
    requires F.FramingOk(f) && PushOk(d.precoder) && |a| % 4 == 0 && |four| == 4
    ensures PushOk(MirrorRun(d, a).precoder)
    ensures UnmapAll(f, d, frame, a + four)
      == UnmapAll(f, d, frame, a) + Unmap(f, MirrorRun(d, a), frame + |a| / 4, four)
    decreases |a|
  {
    hide F.FramingOk, PushOk, Unmap, MirrorRun;
    if a == [] {
      assert a + four == four && four[..4] == four && four[4..] == [];
      MirrorNothing(d);
      UnmapFour(f, d, frame, four);
    } else {
      UnmapAppends(f, MirrorRun(d, a[..4]), frame + 1, a[4..], four);
      assert (a + four)[..4] == a[..4] && (a + four)[4..] == a[4..] + four;
      MirrorAppends(d, a[..4], a[4..]);
      assert a[..4] + a[4..] == a;
    }
  }

  lemma UnmapFour(f: F.Framing, d: Mirror, frame: nat, four: seq<Pair>)
    requires F.FramingOk(f) && PushOk(d.precoder) && |four| == 4
    ensures UnmapAll(f, d, frame, four) == Unmap(f, d, frame, four)
    ensures UnmapAll(f, d, frame, []) == []
  {
    hide F.FramingOk, PushOk, Unmap, MirrorRun;
    assert four[..4] == four && four[4..] == [];
  }

  lemma MirrorNothing(d: Mirror)
    requires PushOk(d.precoder)
    ensures MirrorRun(d, []) == d
  {
  }

  /** The decoder's window and output, in terms of all that was decided. */
  ghost predicate Accounts(t: Trellis, f: F.Framing, h: P.Precoding, all: Window, d: Decoder)
    requires F.FramingOk(f)
  {
    var start := StartMirror(f, h);
    var done := 4 * d.framesOut;
    && done <= |all.decided| < done + 4
    && d.window == all.(decided := all.decided[done..])
    && d.mirror == MirrorRun(start, all.decided[..done])
    && d.bits == UnmapAll(f, start, 0, all.decided[..done])
  }

  lemma StartAccounts(t: Trellis, f: F.Framing, h: P.Precoding)
    requires F.FramingOk(f)
    ensures Accounts(t, f, h, Start(t), NewDecoder(t, f, h))
  {
    hide F.FramingOk, StartMetrics;
  }

  lemma Decode4DAccounts(t: Trellis, f: F.Framing, h: P.Precoding, all: Window, d: Decoder, r: Received)
    requires F.FramingOk(f) && DecoderOk(t, d) && WindowOk(t, all) && Accounts(t, f, h, all, d)
    ensures f.p > 0 && Accounts(t, f, h, Take(t, f, all, r), Decode4D(t, f, d, r))
  {
    hide F.FramingOk, Take, WindowOk, Unmap, MirrorRun, PushOk, UnmapAll, StartMirror;
    FramingParts(f);
    var start := StartMirror(f, h);
    MirrorStarts(f, h);
    var done := 4 * d.framesOut;
    var old' := all.decided[done..];
    DecidesOne(t, f, all, r);
    TakeForgets(t, f, all, old', r);
    var next, w := Take(t, f, all, r), Take(t, f, d.window, r);
    assert w.decided == next.decided[done..];
    assert next.decided[..done] == all.decided[..done];
    if |w.decided| == 4 {
      assert next.decided[..done + 4] == next.decided[..done] + w.decided;
      assert next.decided[done + 4..] == [];
      MirrorAppends(start, next.decided[..done], w.decided);
      assert |next.decided[..done]| / 4 == d.framesOut;
      UnmapAppends(f, start, 0, next.decided[..done], w.decided);
    }
  }

  lemma MirrorStarts(f: F.Framing, h: P.Precoding)
    ensures PushOk(StartMirror(f, h).precoder)
  {
  }

  lemma {:induction false} DecoderAccounts(t: Trellis, f: F.Framing, h: P.Precoding, log: seq<Received>)
    requires F.FramingOk(f)
    ensures f.p > 0 && Accounts(t, f, h, TakeAll(t, f, log), DecodeAll(t, f, h, log))
    decreases |log|
  {
    hide F.FramingOk, Accounts, Take, Decode4D, NewDecoder, Start, DecoderOk, WindowOk;
    FramingParts(f);
    if log == [] {
      StartAccounts(t, f, h);
    } else {
      DecoderAccounts(t, f, h, log[..|log| - 1]);
      Decode4DAccounts(t, f, h, TakeAll(t, f, log[..|log| - 1]), DecodeAll(t, f, h, log[..|log| - 1]), log[|log| - 1]);
    }
  }

  lemma AccountedBits(t: Trellis, f: F.Framing, h: P.Precoding, all: Window, d: Decoder)
    requires F.FramingOk(f) && Accounts(t, f, h, all, d)
    ensures PushOk(StartMirror(f, h).precoder)
    ensures |all.decided| % 4 == 0 ==> d.bits == UnmapAll(f, StartMirror(f, h), 0, all.decided)
  {
    hide F.FramingOk, UnmapAll, MirrorRun;
    if |all.decided| % 4 == 0 {
      assert |all.decided| == 4 * d.framesOut;
      assert all.decided[..|all.decided|] == all.decided;
    }
  }

  // End to end.

  lemma {:induction false} FullBefore(f: F.Framing, frame: nat, frames: seq<Bits>, n: nat)
    requires f.p > 0 && FramesFull(f, frame, frames) && n <= |frames|
    ensures FramesFull(f, frame, frames[..n])
    decreases |frames|
  {
    hide FrameFull;
    if n > 0 {
      FullBefore(f, frame + 1, frames[1..], n - 1);
      assert frames[..n][1..] == frames[1..][..n - 1];
    }
  }

  lemma {:induction false} EncodedBefore(e: Encoder, frames: seq<Bits>, n: nat)
    requires EncoderOk(e) && F.FramingOk(e.framing) && FramesFull(e.framing, e.frame, frames)
    requires n <= |frames|
    ensures FramesFull(e.framing, e.frame, frames[..n])
    ensures EncodeAll(e, frames[..n]).pairs == EncodeAll(e, frames).pairs[..4 * n]
    decreases |frames|
  {
    hide F.FramingOk, FrameFull, EncoderOk, Encode;
    PushOkOf(e);
    FullBefore(e.framing, e.frame, frames, n);
    if n > 0 {
      var first := Encode(e, frames[0]);
      EncodedBefore(first.next, frames[1..], n - 1);
      assert frames[..n][1..] == frames[1..][..n - 1];
      var rest := EncodeAll(first.next, frames[1..]).pairs;
      assert (first.pairs + rest)[..4 * n] == first.pairs + rest[..4 * (n - 1)];
    }
  }

  /** Mapping frames that a decision waits for. */
  const FRAMES_LATE := 6

  function Arrived(frames: seq<Bits>): seq<Bits> {
    if |frames| < FRAMES_LATE then [] else frames[..|frames| - FRAMES_LATE]
  }

  lemma NewStarts(f: F.Framing, t: Trellis, h: P.Precoding)
    requires f.p > 0
    ensures Allowed(t, f, []) && EndState(t, []) == New(f, t, h).state
    ensures New(f, t, h).framing == f && New(f, t, h).trellis == t && New(f, t, h).frame == 0
    ensures MirrorOf(New(f, t, h)) == StartMirror(f, h)
  {
  }

  /** What is decided on is what the mapping frames that have arrived were encoded to. */
  lemma DecidesEncoded(e: Encoder, frames: seq<Bits>, log: seq<Received>)
    requires e.framing.p > 0 && e.frame == 0 && FramesFull(e.framing, 0, frames)
    requires Allowed(e.trellis, e.framing, []) && EndState(e.trellis, []) == e.state
    requires EncoderOk(e) && F.FramingOk(e.framing)
    requires NearlyReceived(log, EncodeAll(e, frames).pairs)
    ensures FramesFull(e.framing, 0, Arrived(frames))
    ensures TakeAll(e.trellis, e.framing, log).decided == EncodeAll(e, Arrived(frames)).pairs
  {
    hide F.FramingOk, EncoderOk, NearlyReceived, TakeAll, Allowed, EndState, EncodeAll;
    var pairs := EncodeAll(e, frames).pairs;
    EncodedIsAllowed(e, [], frames);
    assert [] + pairs == pairs;
    DecidesSent(e.trellis, e.framing, log, pairs);
    EncodedBefore(e, frames, |Arrived(frames)|);
    assert frames[..|Arrived(frames)|] == Arrived(frames);
  }

  /** Channel output heard less than 1 off in every coordinate is decoded bit for bit, six mapping frames late. */
  lemma ChannelOutputDecodes(f: F.Framing, t: Trellis, h: P.Precoding, frames: seq<Bits>, log: seq<Received>)
    requires f.p > 0 && FramesFull(f, 0, frames)
    requires EncoderOk(New(f, t, h)) && F.FramingOk(f)
    requires NearlyReceived(log, EncodeAll(New(f, t, h), frames).pairs)
    ensures DecodeAll(t, f, h, log).bits == Flatten(Arrived(frames))
  {
    hide F.FramingOk, EncoderOk, NearlyReceived, DecodeAll, TakeAll, UnmapAll, Accounts, Allowed, EndState, EncodeAll,
      Flatten, FramesFull, New, Arrived, StartMirror;
    var e := New(f, t, h);
    NewStarts(f, t, h);
    DecidesEncoded(e, frames, log);
    DecoderAccounts(t, f, h, log);
    AccountedBits(t, f, h, TakeAll(t, f, log), DecodeAll(t, f, h, log));
    AllUnmap(e, Arrived(frames));
  }

  // From the equalizer.

  /** Pairs of whitened points. */
  function Whiten(w: W.Whitener, zs: seq<Complex>): seq<Received>
    requires W.WhitenerOk(w)
    decreases |zs|
  {
    if |zs| < 2 then []
    else
      var w1 := W.Push(w, zs[0]);
      [Received(W.Whitened(w, zs[0], 3), W.Whitened(w1, zs[1], 3))] + Whiten(W.Push(w1, zs[1]), zs[2..])
  }

  function WhitenerAfter(w: W.Whitener, zs: seq<Complex>): (after: W.Whitener)
    requires W.WhitenerOk(w)
    ensures W.WhitenerOk(after)
    decreases |zs|
  {
    if |zs| < 2 then w else WhitenerAfter(W.Push(W.Push(w, zs[0]), zs[1]), zs[2..])
  }

  /** Every equalized point within a fourteenth of what was sent. */
  ghost predicate HeardWell(zs: seq<Complex>, sent: seq<P.Fixed>) {
    && |zs| == |sent|
    && forall i :: 0 <= i < |zs| ==> W.Near(zs[i], W.ToComplex(sent[i]), W.NOISE)
  }

  predicate Synced(w: W.Whitener, p: P.Precoder) {
    W.InStep(w, p) && W.Filtered(p)
  }

  lemma SymbolWhitens(w: W.Whitener, e: Encoder, m: nat, g: Group, ring1: nat, ring2: nat, z1: Complex, z2: Complex)
    requires e.framing.p > 0 && PushOk(e.precoder)
    requires LabelOf(e.framing, g.first, ring1) < QUARTER && LabelOf(e.framing, g.second, ring2) < QUARTER
    requires Synced(w, e.precoder)
    requires var s := Encode4D(e, m, g, ring1, ring2);
      W.Near(z1, W.ToComplex(s.first), W.NOISE) && W.Near(z2, W.ToComplex(s.second), W.NOISE)
    ensures W.WhitenerOk(w)
    ensures var s := Encode4D(e, m, g, ring1, ring2);
      && Within(W.Whitened(w, z1, 3), s.pair.first)
      && Within(W.Whitened(W.Push(w, z1), z2, 3), s.pair.second)
      && Synced(W.Push(W.Push(w, z1), z2), s.next.precoder)
  {
    var s := Encode4D(e, m, g, ring1, ring2);
    hide W.InStep, W.Filtered, W.Near, W.Whitened, W.ToComplex, P.Sent, P.Taps, P.RoundDiv, P.Multiple, Within, U0,
      Rotate, LabelPoint, Next, LabelOf, Plus;
    W.WhitenedIsNear(w, e.precoder, s.pair.first, z1);
    W.PushInStep(w, e.precoder, s.pair.first, z1);
    var w1, p1 := W.Push(w, z1), P.Push(e.precoder, s.pair.first);
    W.WhitenedIsNear(w1, p1, s.pair.second, z2);
    W.PushInStep(w1, p1, s.pair.second, z2);
  }

  lemma SyncedIsOk(w: W.Whitener, p: P.Precoder)
    requires Synced(w, p)
    ensures W.WhitenerOk(w)
  {
  }

  lemma HeardHead(zs: seq<Complex>, sent: seq<P.Fixed>, n: nat)
    requires HeardWell(zs, sent) && n <= |sent|
    ensures |zs| == |sent|
    ensures HeardWell(zs[..n], sent[..n]) && HeardWell(zs[n..], sent[n..])
    ensures n >= 2 ==> W.Near(zs[0], W.ToComplex(sent[0]), W.NOISE) && W.Near(zs[1], W.ToComplex(sent[1]), W.NOISE)
  {
    hide W.Near, W.ToComplex;
  }

  lemma NearJoins(a: seq<Received>, b: seq<Received>, p: seq<Pair>, q: seq<Pair>)
    requires NearlyReceived(a, p) && NearlyReceived(b, q)
    ensures NearlyReceived(a + b, p + q)
  {
    hide Within;
  }

  lemma NearOne(r: Received, pair: Pair)
    requires Within(r.first, pair.first) && Within(r.second, pair.second)
    ensures NearlyReceived([r], [pair])
  {
    hide Within;
  }

  lemma {:induction false} GroupsHeard(
      w: W.Whitener, e: Encoder, m: nat, groups: seq<Group>, rings: seq<nat>, zs: seq<Complex>)
    requires EncoderOk(e) && GroupsFit(e.framing, groups, rings)
    requires Synced(w, e.precoder) && HeardWell(zs, EncodeGroups(e, m, groups, rings).sent)
    ensures W.WhitenerOk(w)
    ensures var r := EncodeGroups(e, m, groups, rings);
      NearlyReceived(Whiten(w, zs), r.pairs) && Synced(WhitenerAfter(w, zs), r.next.precoder)
    decreases |groups|
  {
    hide Encode4D, GroupsFit, EncoderOk, RingsFit, PushOk, LabelOf, NearlyReceived, HeardWell, Synced, W.Near, W.Push,
      W.Whitened, W.ToComplex, Within;
    SyncedIsOk(w, e.precoder);
    var r := EncodeGroups(e, m, groups, rings);
    HeardHead(zs, r.sent, 0);
    if groups == [] {
      NothingHeard();
    } else {
      FirstRings(e.framing, groups, rings);
      TailFits(e.framing, groups, rings);
      PairParity(e, m, groups[0], rings[0], rings[1]);
      SymbolKeeps(e, m, groups[0], rings[0], rings[1]);
      var s := Encode4D(e, m, groups[0], rings[0], rings[1]);
      HeardHead(zs, r.sent, 2);
      SymbolWhitens(w, e, m, groups[0], rings[0], rings[1], zs[0], zs[1]);
      var w1 := W.Push(w, zs[0]);
      var rest := EncodeGroups(s.next, m + 1, groups[1..], rings[2..]);
      assert r.sent[2..] == rest.sent;
      GroupsHeard(W.Push(w1, zs[1]), s.next, m + 1, groups[1..], rings[2..], zs[2..]);
      var first := Received(W.Whitened(w, zs[0], 3), W.Whitened(w1, zs[1], 3));
      NearOne(first, s.pair);
      NearJoins([first], Whiten(W.Push(w1, zs[1]), zs[2..]), [s.pair], rest.pairs);
    }
  }

  lemma NothingHeard()
    ensures NearlyReceived([], [])
  {
  }

  lemma {:induction false} WhitenAppends(w: W.Whitener, a: seq<Complex>, b: seq<Complex>)
    requires W.WhitenerOk(w) && |a| % 2 == 0
    ensures Whiten(w, a + b) == Whiten(w, a) + Whiten(WhitenerAfter(w, a), b)
    ensures WhitenerAfter(w, a + b) == WhitenerAfter(WhitenerAfter(w, a), b)
    decreases |a|
  {
    hide W.Whitened, W.Push;
    if a == [] {
      assert a + b == b;
    } else {
      WhitenAppends(W.Push(W.Push(w, a[0]), a[1]), a[2..], b);
      assert (a + b)[2..] == a[2..] + b;
    }
  }

  lemma FrameHeard(w: W.Whitener, e: Encoder, bits: Bits, zs: seq<Complex>)
    requires EncoderOk(e) && F.FramingOk(e.framing) && FrameFull(e.framing, e.frame, bits)
    requires Synced(w, e.precoder) && HeardWell(zs, Encode(e, bits).sent)
    ensures W.WhitenerOk(w)
    ensures var r := Encode(e, bits);
      NearlyReceived(Whiten(w, zs), r.pairs) && Synced(WhitenerAfter(w, zs), r.next.precoder)
  {
    hide F.FramingOk, FrameFull, HighFrame, Parse, GroupsFit, RingsFor, EncodeGroups, EncoderOk, Synced, HeardWell,
      NearlyReceived, Whiten, WhitenerAfter;
    PushOkOf(e);
    FullFits(e.framing, e.frame, bits);
    ParseFits(e.framing, HighFrame(e.framing, e.frame), bits);
    var parsed := Parse(e.framing, HighFrame(e.framing, e.frame), bits);
    GroupsHeard(w, e, 4 * e.frame, parsed.groups, RingsFor(e.framing, parsed.r0), zs);
  }

  lemma {:induction false} AllHeard(w: W.Whitener, e: Encoder, frames: seq<Bits>, zs: seq<Complex>)
    requires EncoderOk(e) && F.FramingOk(e.framing) && FramesFull(e.framing, e.frame, frames)
    requires Synced(w, e.precoder) && HeardWell(zs, EncodeAll(e, frames).sent)
    ensures W.WhitenerOk(w) && NearlyReceived(Whiten(w, zs), EncodeAll(e, frames).pairs)
    decreases |frames|
  {
    hide F.FramingOk, FrameFull, EncoderOk, Encode, Synced, HeardWell, NearlyReceived, WhitenerAfter;
    PushOkOf(e);
    SyncedIsOk(w, e.precoder);
    var r := EncodeAll(e, frames);
    if frames == [] {
      HeardHead(zs, r.sent, 0);
      NothingHeard();
    } else {
      hide Whiten;
      var first := Encode(e, frames[0]);
      var rest := EncodeAll(first.next, frames[1..]);
      HeardHead(zs, r.sent, 8);
      assert r.sent[..8] == first.sent && r.sent[8..] == rest.sent;
      FrameHeard(w, e, frames[0], zs[..8]);
      AllHeard(WhitenerAfter(w, zs[..8]), first.next, frames[1..], zs[8..]);
      WhitenAppends(w, zs[..8], zs[8..]);
      assert zs == zs[..8] + zs[8..];
      NearJoins(Whiten(w, zs[..8]), Whiten(WhitenerAfter(w, zs[..8]), zs[8..]), first.pairs, rest.pairs);
    }
  }

  lemma StartsSynced(f: F.Framing, t: Trellis, h: P.Precoding)
    ensures Synced(W.New(h), New(f, t, h).precoder)
  {
    hide W.InStep, W.Filtered;
    W.NewIsInStep(h, F.PrecoderModulo(f));
  }

  // What was sent is bounded, and so comes back through the warp.

  predicate AllBelow(sent: seq<P.Fixed>) {
    forall x :: x in sent ==> P.Below(x, P.MOST_SENT)
  }

  lemma {:induction false} GroupsBelow(e: Encoder, m: nat, groups: seq<Group>, rings: seq<nat>)
    requires EncoderOk(e) && GroupsFit(e.framing, groups, rings)
    ensures AllBelow(EncodeGroups(e, m, groups, rings).sent)
    decreases |groups|
  {
    hide Encode4D, GroupsFit, EncoderOk, RingsFit, PushOk, LabelOf, P.Below;
    if groups != [] {
      FirstRings(e.framing, groups, rings);
      TailFits(e.framing, groups, rings);
      PairParity(e, m, groups[0], rings[0], rings[1]);
      SymbolKeeps(e, m, groups[0], rings[0], rings[1]);
      EncoderPrecodes(e);
      SymbolBelow(e, m, groups[0], rings[0], rings[1]);
      GroupsBelow(Encode4D(e, m, groups[0], rings[0], rings[1]).next, m + 1, groups[1..], rings[2..]);
    }
  }

  lemma EncoderPrecodes(e: Encoder)
    requires EncoderOk(e)
    ensures P.PrecoderOk(e.precoder)
  {
  }

  lemma FrameBelow(e: Encoder, bits: Bits)
    requires EncoderOk(e) && F.FramingOk(e.framing) && FrameFull(e.framing, e.frame, bits)
    ensures AllBelow(Encode(e, bits).sent)
  {
    hide F.FramingOk, FrameFull, HighFrame, Parse, GroupsFit, RingsFor, EncodeGroups, EncoderOk, AllBelow;
    PushOkOf(e);
    FullFits(e.framing, e.frame, bits);
    ParseFits(e.framing, HighFrame(e.framing, e.frame), bits);
    var parsed := Parse(e.framing, HighFrame(e.framing, e.frame), bits);
    GroupsBelow(e, 4 * e.frame, parsed.groups, RingsFor(e.framing, parsed.r0));
  }

  /** No component of any x(n) is over 51. */
  lemma {:induction false} SentBelow(e: Encoder, frames: seq<Bits>)
    requires EncoderOk(e) && FramesFull(e.framing, e.frame, frames)
    ensures AllBelow(EncodeAll(e, frames).sent)
    decreases |frames|
  {
    hide F.FramingOk, FrameFull, EncoderOk, Encode, P.Below;
    PushOkOf(e);
    if frames != [] {
      FrameBelow(e, frames[0]);
      SentBelow(Encode(e, frames[0]).next, frames[1..]);
    }
  }

  function UnwarpAll(nonlinear: N.Nonlinear, heards: seq<N.Heard>): (xs: seq<Complex>)
    ensures |xs| == |heards| && forall i :: 0 <= i < |xs| ==> xs[i] == N.Unwarped(nonlinear, heards[i])
  {
    seq(|heards|, i requires 0 <= i < |heards| => N.Unwarped(nonlinear, heards[i]))
  }

  /** Every point heard well enough, warped or not. */
  ghost predicate HeardThrough(nonlinear: N.Nonlinear, heards: seq<N.Heard>, sent: seq<P.Fixed>) {
    && |heards| == |sent|
    && forall i :: 0 <= i < |heards| ==> N.HeardNear(nonlinear, heards[i], W.ToComplex(sent[i]))
  }

  lemma BelowIsWithin(x: P.Fixed)
    requires P.Below(x, P.MOST_SENT)
    ensures Abs(W.ToComplex(x).re) <= 51.0 && Abs(W.ToComplex(x).im) <= 51.0
  {
  }

  lemma ThroughIsWell(nonlinear: N.Nonlinear, heards: seq<N.Heard>, sent: seq<P.Fixed>)
    requires HeardThrough(nonlinear, heards, sent) && AllBelow(sent)
    ensures HeardWell(UnwarpAll(nonlinear, heards), sent)
  {
    hide N.Unwarped, N.HeardNear, W.Near, W.ToComplex, P.Below, Abs;
    var xs := UnwarpAll(nonlinear, heards);
    forall i | 0 <= i < |xs| ensures W.Near(xs[i], W.ToComplex(sent[i]), W.NOISE) {
      assert sent[i] in sent;
      BelowIsWithin(sent[i]);
      N.UnwarpedIsNear(nonlinear, heards[i], W.ToComplex(sent[i]));
    }
  }

  /** At any rate of table 8, with any trellis and coefficients, through the non-linear encoder or without it: the bits
      sent come back, six mapping frames late. */
  lemma DataSurvives(
      rate: F.SymbolRate, bitRate: nat, expanded: bool, f: F.Framing,
      t: Trellis, h: P.Precoding, nonlinear: N.Nonlinear, frames: seq<Bits>, heards: seq<N.Heard>)
    requires F.New(rate, bitRate, expanded) == Some(f)
    requires FramesFull(f, 0, frames)
    ensures F.FramingOk(f) && EncoderOk(New(f, t, h)) && New(f, t, h).framing == f && New(f, t, h).frame == 0
    ensures HeardThrough(nonlinear, heards, EncodeAll(New(f, t, h), frames).sent) ==>
      DecodeAll(t, f, h, Whiten(W.New(h), UnwarpAll(nonlinear, heards))).bits == Flatten(Arrived(frames))
  {
    hide F.New, F.FramingOk, EncoderOk, FramesFull, HeardWell, HeardThrough, EncodeAll, DecodeAll, Whiten, Flatten,
      Arrived, Synced, AllBelow, UnwarpAll, W.New, P.New;
    F.NewIsOk(rate, bitRate, expanded);
    V34Coder.NewIsOk(f, t, h);
    if HeardThrough(nonlinear, heards, EncodeAll(New(f, t, h), frames).sent) {
      SentBelow(New(f, t, h), frames);
      ThroughIsWell(nonlinear, heards, EncodeAll(New(f, t, h), frames).sent);
      StartsSynced(f, t, h);
      AllHeard(W.New(h), New(f, t, h), frames, UnwarpAll(nonlinear, heards));
      FullIsPositive(f, frames);
      ChannelOutputDecodes(f, t, h, frames, Whiten(W.New(h), UnwarpAll(nonlinear, heards)));
    }
  }

  lemma FullIsPositive(f: F.Framing, frames: seq<Bits>)
    requires FramesFull(f, 0, frames)
    ensures f.p > 0
  {
  }
}
