/** The V.34 data mode decoder as an object that changes, against its specification. */
module V34DecoderClass {
  import opened Prelude
  import opened BitField
  import opened V34Constellation
  import opened V34Trellis
  import opened V34Nearest
  import opened V34Mapper
  import opened V34Coder
  import opened V34Frames
  import opened V34Viterbi
  import opened V34Paths
  import opened V34PrecoderClass
  import N = V34Warp
  import R = V34RoundTrip
  import F = V34Framing
  import P = V34Precoder
  import W = V34Whitener
  import Shell = V34Shell

  /** The nearest point of each subset, and how far it is. */
  predicate BestOk(best: seq<(Point, real)>, z: Complex) {
    && |best| == 8
    && forall l: Subset :: best[l] == (Nearest(z, l), Distance(z, Nearest(z, l)))
  }

  method BestOf(z: Complex) returns (best: seq<(Point, real)>)
    ensures BestOk(best, z)
  {
    hide Nearest, Distance;
    best := [];
    for l := 0 to 8
      invariant |best| == l
      invariant forall k: Subset :: k < l ==> best[k] == (Nearest(z, k), Distance(z, Nearest(z, k)))
    {
      var found := Nearest(z, l);
      best := best + [(found, Distance(z, found))];
    }
  }

  ghost function TableIn(metrics: array<Metric>, survivors: array<Survivor>): Table
    reads metrics, survivors
  {
    Table(metrics[..], survivors[..])
  }

  lemma ExtendStep(t: Trellis, r: Received, state: nat, metric: real, parity: bool, table: Table, c: nat)
    requires c < 64 && state < States(t) && TableOk(t, table)
    ensures Extend(t, r, state, metric, parity, table, c)
      == Extend(t, r, state, metric, parity, Try(t, r, state, metric, parity, table, c), c + 1)
  {
    hide Try, TableOk;
  }

  lemma TryIs(
      t: Trellis, r: Received, state: nat, metric: real, parity: bool, table: Table, first: Subset, second: Subset,
      best1: seq<(Point, real)>, best2: seq<(Point, real)>)
    requires state < States(t) && TableOk(t, table) && BestOk(best1, r.first) && BestOk(best2, r.second)
    ensures var candidate := metric + best1[first].1 + best2[second].1;
      var points := Pair(best1[first].0, best2[second].0);
      Try(t, r, state, metric, parity, table, 8 * first + second) ==
        if Differ(first, second) != parity then table
        else Improve(table, Next(t, state, Inputs(first, second)), candidate, Survivor(state, points))
  {
    hide Next, Inputs, Nearest, Distance, Improve, Differ;
    assert First(8 * first + second) == first && Second(8 * first + second) == second;
  }

  /** The tables as `Extend` leaves them, over all 64 pairs of subset labels. */
  method ExtendFrom(
      t: Trellis, ghost r: Received, state: nat, metric: real, parity: bool,
      best1: seq<(Point, real)>, best2: seq<(Point, real)>, metrics: array<Metric>, survivors: array<Survivor>)
    requires state < States(t) && BestOk(best1, r.first) && BestOk(best2, r.second)
    requires TableOk(t, TableIn(metrics, survivors))
    modifies metrics, survivors
    ensures TableOk(t, TableIn(metrics, survivors))
    ensures TableIn(metrics, survivors) == Extend(t, r, state, metric, parity, old(TableIn(metrics, survivors)), 0)
  {
    hide Try, Next, Inputs, BestOk, Differ, TableOk, Extend;
    for first: int := 0 to 8
      invariant TableOk(t, TableIn(metrics, survivors))
      invariant Extend(t, r, state, metric, parity, TableIn(metrics, survivors), 8 * first)
        == Extend(t, r, state, metric, parity, old(TableIn(metrics, survivors)), 0)
    {
      for second: int := 0 to 8
        invariant TableOk(t, TableIn(metrics, survivors))
        invariant Extend(t, r, state, metric, parity, TableIn(metrics, survivors), 8 * first + second)
          == Extend(t, r, state, metric, parity, old(TableIn(metrics, survivors)), 0)
      {
        ExtendStep(t, r, state, metric, parity, TableIn(metrics, survivors), 8 * first + second);
        TryIs(t, r, state, metric, parity, TableIn(metrics, survivors), first, second, best1, best2);
        TryOnce(t, state, metric, parity, first, second, best1, best2, r, metrics, survivors);
      }
    }
    ExtendEnds(t, r, state, metric, parity, TableIn(metrics, survivors));
  }

  lemma ExtendEnds(t: Trellis, r: Received, state: nat, metric: real, parity: bool, table: Table)
    requires state < States(t) && TableOk(t, table)
    ensures Extend(t, r, state, metric, parity, table, 64) == table
  {
  }

  /** One pair of labels. */
  method TryOnce(
      t: Trellis, state: nat, metric: real, parity: bool, first: Subset, second: Subset,
      best1: seq<(Point, real)>, best2: seq<(Point, real)>, ghost r: Received,
      metrics: array<Metric>, survivors: array<Survivor>)
    requires state < States(t) && BestOk(best1, r.first) && BestOk(best2, r.second)
    requires TableOk(t, TableIn(metrics, survivors))
    modifies metrics, survivors
    ensures TableOk(t, TableIn(metrics, survivors))
    ensures TableIn(metrics, survivors)
      == Try(t, r, state, metric, parity, old(TableIn(metrics, survivors)), 8 * first + second)
  {
    hide Try, Next, Inputs, Differ, Nearest, Distance;
    ghost var before := TableIn(metrics, survivors);
    TryIs(t, r, state, metric, parity, before, first, second, best1, best2);
    if Differ(first, second) == parity {
      var next := Next(t, state, Inputs(first, second));
      var candidate := metric + best1[first].1 + best2[second].1;
      if Below(candidate, metrics[next]) {
        metrics[next] := Finite(candidate);
        survivors[next] := Survivor(state, Pair(best1[first].0, best2[second].0));
        assert metrics[..] == before.metrics[next := Finite(candidate)];
        assert survivors[..] == before.survivors[next := Survivor(state, Pair(best1[first].0, best2[second].0))];
      }
    }
  }

  /** All states, one at a time. */
  method FillTable(t: Trellis, r: Received, inversion: bool, metrics: seq<Metric>)
    returns (next: seq<Metric>, survivors: seq<Survivor>)
    requires |metrics| == States(t)
    ensures Table(next, survivors) == Fill(t, r, inversion, metrics)
  {
    hide Extend, Output, BestOk, TableOk;
    var best1 := BestOf(r.first);
    var best2 := BestOf(r.second);
    var filling := new Metric[States(t)](_ => Infinity);
    var links := new Survivor[States(t)](_ => Survivor(0, NOWHERE));
    assert TableIn(filling, links) == Empty(t);
    for state := 0 to |metrics|
      invariant TableOk(t, TableIn(filling, links))
      invariant ExtendAll(t, r, inversion, metrics, TableIn(filling, links), state) == Fill(t, r, inversion, metrics)
    {
      if metrics[state].Finite? {
        var parity := Output(t, state) != inversion;
        ExtendFrom(t, r, state, metrics[state].value, parity, best1, best2, filling, links);
      }
    }
    next, survivors := filling[..], links[..];
  }

  /** The decoder after more 4D symbols. */
  function DecodeMore(t: Trellis, f: F.Framing, d: R.Decoder, log: seq<Received>): (after: R.Decoder)
    requires F.FramingOk(f) && R.DecoderOk(t, d)
    ensures R.DecoderOk(t, after)
    decreases |log|
  {
    hide F.FramingOk, R.DecoderOk, R.Decode4D;
    if log == [] then d else R.Decode4D(t, f, DecodeMore(t, f, d, log[..|log| - 1]), log[|log| - 1])
  }

  /** Points heard in several parts are decoded as if in one. */
  lemma {:induction false} DecodesOn(t: Trellis, f: F.Framing, h: P.Precoding, log: seq<Received>, more: seq<Received>)
    requires F.FramingOk(f)
    ensures R.DecodeAll(t, f, h, log + more) == DecodeMore(t, f, R.DecodeAll(t, f, h, log), more)
    decreases |more|
  {
    hide F.FramingOk, R.DecoderOk, R.Decode4D, R.NewDecoder;
    if more == [] {
      assert log + more == log;
    } else {
      var n := |more| - 1;
      DecodesOn(t, f, h, log, more[..n]);
      assert (log + more)[..|log + more| - 1] == log + more[..n];
    }
  }

  // Points one at a time.

  function PushAll(w: W.Whitener, xs: seq<Complex>): (after: W.Whitener)
    requires W.WhitenerOk(w)
    ensures W.WhitenerOk(after)
    decreases |xs|
  {
    if xs == [] then w else W.Push(PushAll(w, xs[..|xs| - 1]), xs[|xs| - 1])
  }

  function WhitenedAll(w: W.Whitener, xs: seq<Complex>): (ys: seq<Complex>)
    requires W.WhitenerOk(w)
    ensures |ys| == |xs|
    decreases |xs|
  {
    if xs == [] then []
    else
      var before := xs[..|xs| - 1];
      WhitenedAll(w, before) + [W.Whitened(PushAll(w, before), xs[|xs| - 1], 3)]
  }

  function Paired(ys: seq<Complex>): (log: seq<Received>)
    decreases |ys|
  {
    if |ys| < 2 then [] else Paired(ys[..|ys| - 2]) + [Received(ys[|ys| - 2], ys[|ys| - 1])]
  }

  lemma LastTwo(w: W.Whitener, xs: seq<Complex>, x: Complex, x': Complex)
    requires W.WhitenerOk(w)
    ensures var w1 := PushAll(w, xs);
      && PushAll(w, xs + [x, x']) == W.Push(W.Push(w1, x), x')
      && WhitenedAll(w, xs + [x, x'])
        == WhitenedAll(w, xs) + [W.Whitened(w1, x, 3), W.Whitened(W.Push(w1, x), x', 3)]
  {
    hide W.Push, W.Whitened, PushAll, WhitenedAll;
    OneMore(w, xs, x);
    OneMore(w, xs + [x], x');
    assert xs + [x, x'] == xs + [x] + [x'];
    Associates(WhitenedAll(w, xs), [W.Whitened(PushAll(w, xs), x, 3)],
      [W.Whitened(W.Push(PushAll(w, xs), x), x', 3)]);
  }

  lemma OneMore(w: W.Whitener, xs: seq<Complex>, x: Complex)
    requires W.WhitenerOk(w)
    ensures PushAll(w, xs + [x]) == W.Push(PushAll(w, xs), x)
    ensures WhitenedAll(w, xs + [x]) == WhitenedAll(w, xs) + [W.Whitened(PushAll(w, xs), x, 3)]
  {
    hide W.Push, W.Whitened;
    assert (xs + [x])[..|xs|] == xs;
  }

  lemma WhitenTwo(w: W.Whitener, x: Complex, x': Complex)
    requires W.WhitenerOk(w)
    ensures var w1 := W.Push(w, x);
      && R.Whiten(w, [x, x']) == [Received(W.Whitened(w, x, 3), W.Whitened(w1, x', 3))]
      && R.WhitenerAfter(w, [x, x']) == W.Push(w1, x')
  {
    hide W.Push, W.Whitened;
    assert [x, x'][2..] == [];
  }

  /** Whitened one at a time and then paired, points are those whitened in pairs. */
  lemma {:induction false} WhitensInPairs(w: W.Whitener, xs: seq<Complex>)
    requires W.WhitenerOk(w) && |xs| % 2 == 0
    ensures R.Whiten(w, xs) == Paired(WhitenedAll(w, xs)) && R.WhitenerAfter(w, xs) == PushAll(w, xs)
    decreases |xs|
  {
    hide W.Push, W.Whitened;
    if xs != [] {
      var n := |xs| - 2;
      var before, x, x' := xs[..n], xs[n], xs[n + 1];
      assert xs == before + [x, x'];
      WhitensInPairs(w, before);
      LastTwo(w, before, x, x');
      R.WhitenAppends(w, before, [x, x']);
      WhitenTwo(PushAll(w, before), x, x');
      PairedTwo(WhitenedAll(w, before), W.Whitened(PushAll(w, before), x, 3),
        W.Whitened(W.Push(PushAll(w, before), x), x', 3));
    }
  }

  lemma PairedTwo(ys: seq<Complex>, y: Complex, y': Complex)
    ensures Paired(ys + [y, y']) == Paired(ys) + [Received(y, y')]
  {
    assert (ys + [y, y'])[..|ys|] == ys;
  }

  lemma PairedEight(ys: seq<Complex>, more: seq<Complex>)
    requires |more| == 8
    ensures Paired(ys + more) == Paired(ys) + PairsOf(more)
  {
    hide Paired;
    assert ys + more
      == ys + [more[0], more[1]] + [more[2], more[3]] + [more[4], more[5]] + [more[6], more[7]];
    PairedTwo(ys, more[0], more[1]);
    PairedTwo(ys + [more[0], more[1]], more[2], more[3]);
    PairedTwo(ys + [more[0], more[1]] + [more[2], more[3]], more[4], more[5]);
    PairedTwo(ys + [more[0], more[1]] + [more[2], more[3]] + [more[4], more[5]], more[6], more[7]);
  }

  /** How many of some points are in whole mapping frames. */
  function Whole(n: nat): (w: nat)
    ensures w <= n < w + 8
  {
    n - n % 8
  }

  lemma WholeNext(n: nat)
    ensures Whole(n + 1) == if n - Whole(n) == 7 then n + 1 else Whole(n)
    ensures n % 8 == 0 ==> Whole(n) == n
  {
    var q := n / 8;
    assert n == 8 * q + n % 8;
    if n % 8 == 7 {
      assert n + 1 == 8 * (q + 1);
    } else {
      assert n + 1 == 8 * q + (n % 8 + 1);
    }
  }

  function PairsOf(ys: seq<Complex>): (log: seq<Received>)
    requires |ys| == 8
  {
    [Received(ys[0], ys[1]), Received(ys[2], ys[3]), Received(ys[4], ys[5]), Received(ys[6], ys[7])]
  }

  lemma FrameGrows(outputs: seq<Complex>, frame: seq<Complex>, y: Complex)
    requires frame == outputs[Whole(|outputs|)..]
    ensures var more, n := outputs + [y], Whole(|outputs| + 1);
      if |frame| + 1 == 8 then
        n == |more| && more[..n] == outputs[..Whole(|outputs|)] + (frame + [y]) && more[n..] == []
      else
        |frame| < 7 && more[..n] == outputs[..Whole(|outputs|)] && more[n..] == frame + [y]
  {
    WholeNext(|outputs|);
    hide Whole;
  }

  lemma FrameDecodes(f: F.Framing, t: Trellis, h: P.Precoding, whole: seq<Complex>, points: seq<Complex>)
    requires F.FramingOk(f) && |points| == 8
    ensures R.DecodeAll(t, f, h, Paired(whole + points))
      == DecodeMore(t, f, R.DecodeAll(t, f, h, Paired(whole)), PairsOf(points))
  {
    hide F.FramingOk, R.DecoderOk, R.DecodeAll, DecodeMore, Paired;
    PairedEight(whole, points);
    DecodesOn(t, f, h, Paired(whole), PairsOf(points));
  }

  lemma NothingYet(w: W.Whitener, nonlinear: N.Nonlinear)
    requires W.WhitenerOk(w)
    ensures R.UnwarpAll(nonlinear, []) == [] && PushAll(w, []) == w && WhitenedAll(w, []) == [] && Whole(0) == 0
  {
  }

  lemma StartIs(f: F.Framing, t: Trellis, h: P.Precoding)
    requires F.FramingOk(f)
    ensures R.DecodeAll(t, f, h, Paired([])) == R.NewDecoder(t, f, h)
  {
    hide F.FramingOk, R.NewDecoder;
  }

  /** One more point heard, whitened by the filter after all the others. */
  lemma HeardMore(nonlinear: N.Nonlinear, h: P.Precoding, heard: seq<N.Heard>, point: N.Heard)
    ensures var w, xs, x := W.New(h), R.UnwarpAll(nonlinear, heard), N.Unwarped(nonlinear, point);
      var more := R.UnwarpAll(nonlinear, heard + [point]);
      && PushAll(w, more) == W.Push(PushAll(w, xs), x)
      && WhitenedAll(w, more) == WhitenedAll(w, xs) + [W.Whitened(PushAll(w, xs), x, 3)]
  {
    hide W.Push, W.Whitened, N.Unwarped, PushAll, WhitenedAll, W.New;
    var xs, more := R.UnwarpAll(nonlinear, heard), R.UnwarpAll(nonlinear, heard + [point]);
    assert more == xs + [N.Unwarped(nonlinear, point)];
    OneMore(W.New(h), xs, N.Unwarped(nonlinear, point));
  }

  /** A filter, what it whitened of a mapping frame, and a decoder, that have heard just these points. */
  ghost predicate Follows(
      t: Trellis, f: F.Framing, h: P.Precoding, nonlinear: N.Nonlinear, heard: seq<N.Heard>,
      w: W.Whitener, frame: seq<Complex>, d: R.Decoder)
    requires F.FramingOk(f)
  {
    var xs := R.UnwarpAll(nonlinear, heard);
    var ys := WhitenedAll(W.New(h), xs);
    && w == PushAll(W.New(h), xs)
    && frame == ys[Whole(|heard|)..]
    && d == R.DecodeAll(t, f, h, Paired(ys[..Whole(|heard|)]))
  }

  lemma NothingFollows(t: Trellis, f: F.Framing, h: P.Precoding, nonlinear: N.Nonlinear)
    requires F.FramingOk(f)
    ensures Follows(t, f, h, nonlinear, [], W.New(h), [], R.NewDecoder(t, f, h))
  {
    hide F.FramingOk, R.NewDecoder;
    NothingYet(W.New(h), nonlinear);
    StartIs(f, t, h);
  }

  lemma FollowsOn(
      t: Trellis, f: F.Framing, h: P.Precoding, nonlinear: N.Nonlinear, heard: seq<N.Heard>,
      w: W.Whitener, frame: seq<Complex>, d: R.Decoder, point: N.Heard)
    requires F.FramingOk(f) && W.WhitenerOk(w) && R.DecoderOk(t, d)
    requires Follows(t, f, h, nonlinear, heard, w, frame, d)
    ensures var x := N.Unwarped(nonlinear, point);
      var more := frame + [W.Whitened(w, x, 3)];
      if |more| == 8 then
        Follows(t, f, h, nonlinear, heard + [point], W.Push(w, x), [], DecodeMore(t, f, d, PairsOf(more)))
      else
        |more| < 8 && Follows(t, f, h, nonlinear, heard + [point], W.Push(w, x), more, d)
  {
    hide F.FramingOk, R.DecoderOk, R.DecodeAll, DecodeMore, W.Whitened, W.Push, W.WhitenerOk, W.New, N.Unwarped,
      Paired, Whole, PushAll, WhitenedAll, R.UnwarpAll, PairsOf;
    HeardMore(nonlinear, h, heard, point);
    var ys := WhitenedAll(W.New(h), R.UnwarpAll(nonlinear, heard));
    var y := W.Whitened(w, N.Unwarped(nonlinear, point), 3);
    FrameGrows(ys, frame, y);
    if |frame| == 7 {
      FrameDecodes(f, t, h, ys[..Whole(|ys|)], frame + [y]);
    }
  }

  /** The decoder in fields; `Valid` says that it is what all the points heard so far make of a new one. */
  class Decoder {
    const framing: F.Framing
    const trellis: Trellis
    var metrics: seq<Metric>
    var survivors: seq<seq<Survivor>>
    var received: nat
    var decided: seq<Pair>
    var framesOut: nat
    var quadrant: nat
    const precoder: Precoder
    const whitener: Whitener
    /** Points of the mapping frame that is not all heard. */
    var frame: seq<Complex>
    /** Every bit given out so far. */
    ghost var given: Bits
    /** Every point heard so far, and the coefficients that the far end was asked for. */
    ghost var heard: seq<N.Heard>
    ghost const precoding: P.Precoding

    ghost function WindowView(): Window
      reads this
    {
      Window(metrics, survivors, received, decided)
    }

    ghost function MirrorView(): Mirror
      reads this, precoder
    {
      Mirror(quadrant, precoder.View())
    }

    ghost function View(): R.Decoder
      reads this, precoder
    {
      R.Decoder(WindowView(), framesOut, MirrorView(), given)
    }

    ghost predicate Sound()
      reads this, precoder, whitener
    {
      F.FramingOk(framing) && precoder.Valid() && whitener.Valid() && R.DecoderOk(trellis, View())
    }

    /** It is what a decoder of all it has heard is, and has in hand what is not yet a mapping frame. */
    ghost predicate Valid()
      reads this, precoder, whitener
    {
      Sound() && Follows(trellis, framing, precoding, whitener.nonlinear, heard, whitener.View(), frame, View())
    }

    constructor (framing: F.Framing, trellis: Trellis, precoding: P.Precoding, nonlinear: N.Nonlinear)
      requires F.FramingOk(framing)
      ensures Valid() && fresh(precoder) && fresh(whitener)
      ensures View() == R.NewDecoder(trellis, framing, precoding)
      ensures this.framing == framing && this.trellis == trellis && this.precoding == precoding
      ensures whitener.nonlinear == nonlinear && heard == []
    {
      hide F.FramingOk;
      this.framing, this.trellis, this.precoding := framing, trellis, precoding;
      metrics, survivors, received, decided := StartMetrics(trellis), [], 0, [];
      framesOut, quadrant, frame, given, heard := 0, 0, [], [], [];
      precoder := new Precoder(precoding, F.PrecoderModulo(framing));
      whitener := new Whitener(precoding, nonlinear);
      new;
      NothingFollows(trellis, framing, precoding, nonlinear);
    }

    /** Takes an equalized point, and gives the point it should have been, and bits when a mapping frame is decided. */
    method Push(point: N.Heard) returns (target: Complex, bits: Bits)
      requires Valid()
      modifies this, precoder, whitener
      ensures Valid() && given == old(given) + bits && heard == old(heard) + [point]
      ensures var x := N.Unwarped(whitener.nonlinear, point);
        var y := W.Whitened(old(whitener.View()), x, 3);
        && target == N.Warped(whitener.nonlinear, N.Corrected(x, y))
        && W.Whitened(old(whitener.View()), N.Corrected(x, y), 3) == N.AsComplex(N.Decided(y))
    {
      hide F.FramingOk, R.DecoderOk, Follows, DecodeMore, W.Whitened, W.Push, W.WhitenerOk, N.Unwarped, N.Warped,
        N.Corrected, N.Decided, N.AsComplex;
      FollowsOn(
        trellis, framing, precoding, whitener.nonlinear, heard, whitener.View(), frame, View(), point);
      var y;
      y, target := whitener.Push(point);
      heard := heard + [point];
      frame := frame + [y];
      bits := [];
      if |frame| == 8 {
        bits := TakeFrame();
      }
    }

    method TakeFrame() returns (bits: Bits)
      requires Sound() && |frame| == 8
      modifies this, precoder
      ensures Sound() && given == old(given) + bits && frame == [] && heard == old(heard)
      ensures View() == DecodeMore(trellis, framing, old(View()), PairsOf(old(frame)))
    {
      hide F.FramingOk, R.DecoderOk, DecodeMore;
      var points := frame;
      frame := [];
      bits := Decode(points);
    }

    /** Eight points of the channel output. */
    method Decode(points: seq<Complex>) returns (bits: Bits)
      requires Sound() && |points| == 8
      modifies this, precoder
      ensures Sound() && given == old(given) + bits
      ensures frame == old(frame) && heard == old(heard)
      ensures View() == DecodeMore(trellis, framing, old(View()), PairsOf(points))
    {
      hide F.FramingOk, R.DecoderOk, R.Decode4D;
      bits := [];
      ghost var log := PairsOf(points);
      for n := 0 to 4
        invariant Sound() && given == old(given) + bits && frame == old(frame) && heard == old(heard)
        invariant View() == DecodeMore(trellis, framing, old(View()), log[..n])
      {
        assert log[..n + 1][..n] == log[..n];
        var more := Decode4D(Received(points[2 * n], points[2 * n + 1]));
        bits := bits + more;
      }
      assert log[..4] == log;
    }

    /** A pair of them. */
    method Decode4D(r: Received) returns (bits: Bits)
      requires Sound()
      modifies this, precoder
      ensures Sound() && given == old(given) + bits
      ensures frame == old(frame) && heard == old(heard)
      ensures View() == R.Decode4D(trellis, framing, old(View()), r)
    {
      hide F.FramingOk, V34Paths.Step, V34Paths.TraceBack, WindowOk, V34Frames.Unmap, MirrorRun, PushOk;
      FramingParts(framing);
      R.DecidesOne(trellis, framing, WindowView(), r);
      bits := [];
      Step(r);
      if |survivors| > DEPTH {
        TraceBack();
        if |decided| == 4 {
          R.Cleared(trellis, WindowView());
          bits := Unmap();
          given := given + bits;
          decided := [];
        }
      }
    }

    /** The metrics and survivors after one more 4D symbol. */
    method Step(r: Received)
      requires framing.p > 0 && WindowOk(trellis, WindowView())
      modifies this`received, this`metrics, this`survivors
      ensures WindowOk(trellis, WindowView())
      ensures WindowView() == V34Paths.Step(trellis, framing, old(WindowView()), r)
    {
      hide Fill, Inversion, Floor;
      var inversion := Inversion(framing, received);
      received := received + 1;
      var next, links := FillTable(trellis, r, inversion, metrics);
      metrics := Lowered(next, FloorOf(next));
      survivors := survivors + [links];
    }

    /** Decides on the oldest points of the best path, and forgets how it was reached. */
    method TraceBack()
      requires WindowOk(trellis, WindowView()) && survivors != []
      modifies this`decided, this`survivors
      ensures WindowOk(trellis, WindowView())
      ensures WindowView() == V34Paths.TraceBack(trellis, old(WindowView()))
    {
      hide Best, LinksOk;
      var state: nat := Best(metrics);
      var decision := NOWHERE;
      var n: nat := |survivors|;
      assert survivors[..n] == survivors;
      while n > 0
        invariant n <= |survivors| && state < States(trellis)
        invariant HistoryOk(trellis, survivors[..n])
        invariant Walk(trellis, survivors[..n], state, decision) == Walk(trellis, survivors, Best(metrics), NOWHERE)
      {
        n := n - 1;
        assert survivors[..n + 1][..n] == survivors[..n];
        var survivor := SurvivorAt(trellis, survivors[n], state);
        decision := survivor.points;
        state := survivor.from;
      }
      survivors := survivors[1..];
      decided := decided + [decision];
    }

    /** The bits of four decided 4D symbols. */
    method Unmap() returns (bits: Bits)
      requires F.FramingOk(framing) && precoder.Valid() && |decided| == 4
      modifies this`framesOut, this`quadrant, precoder
      ensures precoder.Valid() && framesOut == old(framesOut) + 1
      ensures MirrorView() == MirrorRun(old(MirrorView()), decided)
      ensures bits == V34Frames.Unmap(framing, old(MirrorView()), old(framesOut), decided)
    {
      hide F.FramingOk, MirrorAfter, V34Coder.Unmap4D, HighFrame, Shell.New, Shell.Unmap, Shell.MapperOk, Serialize,
        MirrorRun, UnmapGroups, GroupsOf, RingsOf;
      FramingParts(framing);
      var high := HighFrame(framing, framesOut);
      HighBits(framing, high, framesOut) by {
        HighFrameIs(framing, framesOut);
      }
      ghost var start, frames := MirrorView(), framesOut;
      framesOut := framesOut + 1;
      var us: seq<Unmapped> := [];
      for j := 0 to 4
        invariant precoder.Valid() && framesOut == frames + 1
        invariant |us| == j && AllInRings(framing, us)
        invariant us + UnmapGroups(framing, MirrorView(), decided[j..]) == UnmapGroups(framing, start, decided)
        invariant MirrorRun(MirrorView(), decided[j..]) == MirrorRun(start, decided)
      {
        GroupsStep(framing, MirrorView(), decided, j);
        ghost var before, mirror := us, MirrorView();
        var u := Unmap4D(decided[j]);
        us := us + [u];
        assert before + ([u] + UnmapGroups(framing, MirrorView(), decided[j + 1..]))
            == us + UnmapGroups(framing, MirrorView(), decided[j + 1..]);
      }
      GroupsEnd(framing, MirrorView(), decided);
      assert us + [] == us;
      Shell4(framing);
      var r0 := if framing.b <= 12 then 0 else Shell.Unmap(Shell.New(framing.rings), RingsOf(framing, us));
      bits := Serialize(framing, high, Parsed(r0, GroupsOf(us)));
    }

    /** The group and rings of a decided 4D symbol, with c(n) taken away. */
    method Unmap4D(pair: Pair) returns (u: Unmapped)
      requires framing.rings >= 1 && precoder.Valid()
      modifies this`quadrant, precoder
      ensures precoder.Valid()
      ensures u == V34Coder.Unmap4D(framing, old(MirrorView()), pair)
      ensures MirrorView() == MirrorAfter(old(MirrorView()), pair)
    {
      hide P.Push, Label, Pow2, RingOf;
      var (l1, t1) := LabelLess(pair.first, precoder.c);
      var _ := precoder.Push(pair.first);
      var (l2, t2) := LabelLess(pair.second, precoder.c);
      var _ := precoder.Push(pair.second);
      var i := (4 + t1 - quadrant) % 4;
      quadrant := t1;
      var i1 := (4 + t2 - t1) % 4 >= 2;
      var g := Group(i1, i % 2 == 1, i >= 2, l1 % Pow2(framing.q), l2 % Pow2(framing.q));
      u := Unmapped(g, RingOf(framing, l1), RingOf(framing, l2));
    }
  }

  /** After whole mapping frames, however its points came, the object is the decoder of all of them. */
  lemma HeardWhole(d: Decoder)
    requires d.Valid() && |d.heard| % 8 == 0
    ensures d.View() == R.DecodeAll(d.trellis, d.framing, d.precoding,
      R.Whiten(W.New(d.precoding), R.UnwarpAll(d.whitener.nonlinear, d.heard)))
    ensures d.frame == []
  {
    hide R.DecodeAll, R.Whiten, W.New, Paired, R.DecoderOk, F.FramingOk;
    var xs := R.UnwarpAll(d.whitener.nonlinear, d.heard);
    EvenEights(|xs|);
    WhitensInPairs(W.New(d.precoding), xs);
    WholeNext(|d.heard|);
    assert WhitenedAll(W.New(d.precoding), xs)[..|xs|] == WhitenedAll(W.New(d.precoding), xs);
  }

  lemma EvenEights(n: nat)
    ensures n % 8 == 0 ==> n % 2 == 0
  {
    AddTwos(n % 8, 4 * (n / 8));
  }

  /** A decoder that heard well all that an encoder of its framing sent has given its bits, six mapping frames late. */
  lemma GivesBack(d: Decoder, rate: F.SymbolRate, bitRate: nat, expanded: bool, frames: seq<Bits>)
    requires d.Valid() && F.New(rate, bitRate, expanded) == Some(d.framing) && FramesFull(d.framing, 0, frames)
    ensures EncoderOk(V34Coder.New(d.framing, d.trellis, d.precoding))
    ensures var e := V34Coder.New(d.framing, d.trellis, d.precoding);
      && e.framing == d.framing && e.frame == 0
      && (R.HeardThrough(d.whitener.nonlinear, d.heard, EncodeAll(e, frames).sent) ==>
        d.given == Flatten(R.Arrived(frames)))
  {
    hide F.New, F.FramingOk, EncoderOk, FramesFull, R.HeardThrough, R.DecodeAll, R.Whiten, R.UnwarpAll, R.Arrived,
      Flatten, EncodeAll, W.New, Follows;
    var nonlinear := d.whitener.nonlinear;
    R.DataSurvives(rate, bitRate, expanded, d.framing, d.trellis, d.precoding, nonlinear, frames, d.heard);
    var e := V34Coder.New(d.framing, d.trellis, d.precoding);
    if R.HeardThrough(nonlinear, d.heard, EncodeAll(e, frames).sent) {
      HeardAsMany(nonlinear, d.heard, EncodeAll(e, frames).sent);
      HeardWhole(d);
    }
  }

  lemma HeardAsMany(nonlinear: N.Nonlinear, heards: seq<N.Heard>, sent: seq<P.Fixed>)
    requires R.HeardThrough(nonlinear, heards, sent)
    ensures |heards| == |sent|
  {
  }

  function LabelLess(y: Point, c: Point): (nat, nat) {
    var found := Label(Minus(y, c));
    if found.Some? then found.value else (0, 0)
  }

  lemma HighFrameIs(f: F.Framing, frame: nat)
    requires f.p > 0
    ensures HighFrame(f, frame) == F.High(f, frame % f.p)
  {
    hide F.High;
  }

  lemma Shell4(f: F.Framing)
    requires f.rings >= 1
    ensures Shell.New(f.rings).rings == f.rings && Shell.MapperOk(Shell.New(f.rings))
  {
    hide Shell.New, Shell.MapperOk;
    ShellRings(f.rings);
  }

  lemma GroupsStep(f: F.Framing, d: Mirror, pairs: seq<Pair>, j: nat)
    requires f.rings >= 1 && PushOk(d.precoder) && j < |pairs|
    ensures PushOk(MirrorAfter(d, pairs[j]).precoder)
    ensures UnmapGroups(f, d, pairs[j..])
      == [V34Coder.Unmap4D(f, d, pairs[j])] + UnmapGroups(f, MirrorAfter(d, pairs[j]), pairs[j + 1..])
    ensures MirrorRun(d, pairs[j..]) == MirrorRun(MirrorAfter(d, pairs[j]), pairs[j + 1..])
  {
    hide V34Coder.Unmap4D, MirrorAfter, PushOk;
    MirrorOk(d, pairs[j]);
    assert pairs[j..][1..] == pairs[j + 1..];
  }

  lemma GroupsEnd(f: F.Framing, d: Mirror, pairs: seq<Pair>)
    requires f.rings >= 1 && PushOk(d.precoder)
    ensures UnmapGroups(f, d, pairs[|pairs|..]) == [] && MirrorRun(d, pairs[|pairs|..]) == d
  {
  }
}
