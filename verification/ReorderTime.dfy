/** The clock of the reordering: between resynchronisations, samples are let out in order and on time. */
module ReorderTime {
  import opened Prelude
  import opened Reorder

  /** Time gone by: what was missing and what was let out. */
  function Elapsed(out: seq<Emitted>): nat {
    if out == [] then 0
    else Elapsed(out[..|out| - 1]) + out[|out| - 1].gap + Length32(out[|out| - 1].samples)
  }

  /** Packet `j` was let out after as much time from `start` as its timestamp says. */
  predicate Punctual(stretch: seq<Emitted>, start: U32, j: nat)
    requires j < |stretch|
  {
    stretch[j].timestamp == Wrap32(start + Elapsed(stretch[..j]) + stretch[j].gap)
  }

  ghost predicate Kept(stretch: seq<Emitted>, start: U32) {
    && Increasing(stretch)
    && forall j :: 0 <= j < |stretch| ==> Punctual(stretch, start, j)
  }

  /** What was let out from `from` on is in order and on time, and leaves the clock where the elapsed time puts it. */
  ghost predicate OnTime(s: Reorder, from: nat, start: U32) {
    && s.next.Some? && from <= |s.out|
    && var next := s.next.value;
    && Kept(s.out[from..], start)
    && (forall e :: e in s.out[from..] ==> e.sequence < next.sequence)
    && (forall n :: n in s.held ==> n >= next.sequence)
    && next.timestamp == Wrap32(start + Elapsed(s.out[from..]))
  }

  lemma WrapSame(x: int, k: int)
    ensures Wrap32(x + 0x1_0000_0000 * k) == Wrap32(x)
  {
  }

  /** The clock after a packet at `timestamp`, counted from where it started. */
  lemma ClockAdds(start: int, t: int, next: U32, timestamp: int, length: int)
    requires next == Wrap32(start + t)
    ensures Wrap32(timestamp + length) == Wrap32(start + (t + Wrap32(timestamp - next) + length))
  {
    var a := (start + t) / 0x1_0000_0000;
    var b := (timestamp - next) / 0x1_0000_0000;
    assert next == start + t - 0x1_0000_0000 * a;
    assert Wrap32(timestamp - next) == timestamp - next - 0x1_0000_0000 * b;
    WrapSame(timestamp + length, a - b);
  }

  lemma StaysPunctual(stretch: seq<Emitted>, start: U32, last: Emitted, j: nat)
    requires j < |stretch| && Punctual(stretch, start, j)
    ensures Punctual(stretch + [last], start, j)
  {
    hide Elapsed, Wrap32;
    assert (stretch + [last])[..j] == stretch[..j];
  }

  lemma AppendKeeps(stretch: seq<Emitted>, start: U32, last: Emitted)
    requires Kept(stretch, start) && forall e :: e in stretch ==> e.sequence < last.sequence
    requires last.timestamp == Wrap32(start + Elapsed(stretch) + last.gap)
    ensures Kept(stretch + [last], start)
  {
    AppendIncreases(stretch, last);
    LastPunctual(stretch, start, last);
    hide Increasing, Punctual;
    forall j | 0 <= j < |stretch| + 1 ensures Punctual(stretch + [last], start, j) {
      if j < |stretch| {
        StaysPunctual(stretch, start, last, j);
      }
    }
  }

  lemma LastPunctual(stretch: seq<Emitted>, start: U32, last: Emitted)
    requires last.timestamp == Wrap32(start + Elapsed(stretch) + last.gap)
    ensures Punctual(stretch + [last], start, |stretch|)
  {
    hide Elapsed, Wrap32;
    assert (stretch + [last])[..|stretch|] == stretch;
  }

  lemma WrapOfWrapped(x: U32)
    ensures Wrap32(x + 0) == x
  {
  }

  lemma EmitOnTime(s: Reorder, from: nat, start: U32)
    requires OnTime(s, from, start) && s.next.value.sequence in s.held
    ensures OnTime(Emit(s), from, start)
  {
    hide Kept, Wrap32, Length32;
    var at := s.next.value;
    var packet := s.held[at.sequence];
    var after := Emit(s);
    var before, last := s.out[from..], after.out[|s.out|];
    assert after.out[from..] == before + [last];
    ClockAdds(start, Elapsed(before), at.timestamp, packet.timestamp, 0);
    WrapOfWrapped(packet.timestamp);
    AppendKeeps(before, start, last);
    assert (before + [last])[..|before|] == before;
    ClockAdds(start, Elapsed(before), at.timestamp, packet.timestamp, Length32(packet.samples));
  }

  lemma OnTimeNext(s: Reorder, from: nat, start: U32)
    requires OnTime(s, from, start)
    ensures s.next.Some? && from <= |s.out| && Kept(s.out[from..], start)
  {
  }

  lemma {:induction false} DrainOnTime(s: Reorder, from: nat, start: U32)
    requires OnTime(s, from, start)
    ensures OnTime(Drain(s), from, start)
    decreases |s.held|
  {
    hide OnTime, Kept;
    OnTimeNext(s, from, start);
    if s.next.value.sequence in s.held {
      EmitOnTime(s, from, start);
      DrainOnTime(Emit(s), from, start);
    }
  }

  lemma SkipOnTime(s: Reorder, from: nat, start: U32)
    requires OnTime(s, from, start) && s.held != map[]
    ensures OnTime(SkipToFirstHeld(s), from, start)
  {
    hide Kept;
    assert s.held.Keys != {} by {
      var k :| k in s.held;
      assert k in s.held.Keys;
    }
  }

  lemma {:induction false} ShrinkOnTime(s: Reorder, most: nat, from: nat, start: U32)
    requires OnTime(s, from, start)
    ensures s.next.Some? && OnTime(Shrink(s, most), from, start) && s.out <= Shrink(s, most).out
    decreases |s.held|
  {
    hide OnTime, Drain, SkipToFirstHeld, Kept;
    OnTimeNext(s, from, start);
    if |s.held| > most {
      var skipped := SkipToFirstHeld(s);
      SkipOnTime(s, from, start);
      SkipHolds(s);
      DrainOnTime(skipped, from, start);
      DrainAppends(skipped);
      SkippedShrinks(s);
      ShrinkOnTime(Drain(skipped), most, from, start);
    }
  }

  /** Whether a packet is too far from what is next, either way, for the stream to be the same one. */
  predicate Resyncs(s: Reorder, sequence: U16)
    requires s.next.Some?
  {
    Magnitude(Distance(sequence, s.next.value.sequence)) > 3000
  }

  lemma AddedOnTime(s: Reorder, number: nat, packet: Packet, from: nat, start: U32)
    requires OnTime(s, from, start) && number >= s.next.value.sequence
    ensures OnTime(s.(held := s.held[number := packet]), from, start)
  {
    hide Kept;
  }

  /** A push that neither begins the stream nor begins it again goes on with its order and clock. */
  lemma PushGoesOn(s: Reorder, sequence: U16, packet: Packet, from: nat, start: U32)
    requires OnTime(s, from, start) && !Resyncs(s, sequence)
    ensures var after := Push(s, sequence, packet); OnTime(after, from, start) && s.out <= after.out
  {
    hide Drain, Shrink, Distance, OnTime;
    OnTimeNext(s, from, start);
    var next, d := s.next.value.sequence, Distance(sequence, s.next.value.sequence);
    if d >= 0 {
      var added := s.(held := s.held[next + d := packet]);
      AddedOnTime(s, next + d, packet, from, start);
      DrainOnTime(added, from, start);
      DrainAppends(added);
      DrainShrinks(added);
      ShrinkOnTime(Drain(added), s.window, from, start);
    }
  }

  // Where the stream begins.

  /** A packet that began the stream, or began it again, and how much had been let out before it. */
  datatype Cut = Cut(from: nat, sequence: U16, packet: Packet)

  /** The stretch that begins at a cut: with its packet, after no gap, and then in order and on time. */
  ghost predicate From(stretch: seq<Emitted>, cut: Cut) {
    && stretch != []
    && stretch[0] == Emitted(cut.sequence, cut.packet.timestamp, 0, cut.packet.samples)
    && Kept(stretch, cut.packet.timestamp)
  }

  /** The state after a cut: on time since it, and everything from it on is its stretch. */
  ghost predicate Since(s: Reorder, cut: Cut) {
    && OnTime(s, cut.from, cut.packet.timestamp)
    && From(s.out[cut.from..], cut)
  }

  function Beginning(s: Reorder, sequence: U16, packet: Packet): Reorder {
    s.(next := Some(Position(sequence, packet.timestamp)), held := map[sequence := packet])
  }

  lemma BeginningOnTime(s: Reorder, sequence: U16, packet: Packet)
    ensures OnTime(Beginning(s, sequence, packet), |s.out|, packet.timestamp)
  {
    var at := Beginning(s, sequence, packet);
    assert at.out[|s.out|..] == [];
  }

  lemma BeginsStretch(s: Reorder, sequence: U16, packet: Packet)
    ensures var after := Drain(Beginning(s, sequence, packet));
      Since(after, Cut(|s.out|, sequence, packet)) && s.out <= after.out
  {
    hide OnTime, Kept, Drain;
    var at, start := Beginning(s, sequence, packet), packet.timestamp;
    BeginningOnTime(s, sequence, packet);
    DrainOnTime(at, |s.out|, start);
    OnTimeNext(Drain(at), |s.out|, start);
    FirstIsOut(s, sequence, packet);
  }

  lemma FirstIsOut(s: Reorder, sequence: U16, packet: Packet)
    ensures var first := Emitted(sequence, packet.timestamp, 0, packet.samples);
      s.out + [first] <= Drain(Beginning(s, sequence, packet)).out
  {
    var at := Beginning(s, sequence, packet);
    assert Emit(at).out == s.out + [Emitted(sequence, packet.timestamp, 0, packet.samples)];
    DrainAppends(Emit(at));
  }

  lemma SinceGoesOn(s: Reorder, after: Reorder, cut: Cut)
    requires Since(s, cut) && OnTime(after, cut.from, cut.packet.timestamp) && s.out <= after.out
    ensures Since(after, cut)
  {
    hide Kept;
    assert s.out[cut.from..] <= after.out[cut.from..];
  }

  /** The first packet begins the stream where it stands. */
  lemma FirstBegins(s: Reorder, sequence: U16, packet: Packet)
    requires s.next.None? && s.held == map[]
    ensures var after := Push(s, sequence, packet);
      Since(after, Cut(|s.out|, sequence, packet)) && s.out <= after.out
  {
    hide Since, OnTime, Drain, Shrink;
    var at := Beginning(s, sequence, packet);
    assert Started(s, sequence, packet.timestamp).held[sequence := packet] == map[sequence := packet];
    assert Distance(sequence, sequence) == 0;
    assert Push(s, sequence, packet) == Shrink(Drain(at), s.window) by {
      DrainShrinks(at);
    }
    var cut := Cut(|s.out|, sequence, packet);
    BeginsStretch(s, sequence, packet);
    SinceOnTime(Drain(at), cut);
    ShrinkOnTime(Drain(at), s.window, cut.from, packet.timestamp);
    SinceGoesOn(Drain(at), Shrink(Drain(at), s.window), cut);
  }

  lemma SinceOnTime(s: Reorder, cut: Cut)
    requires Since(s, cut)
    ensures OnTime(s, cut.from, cut.packet.timestamp) && s.next.Some? && cut.from < |s.out|
    ensures From(s.out[cut.from..], cut)
  {
  }

  /** All that was held is let out on time, and the packet begins the stream again. */
  lemma ResyncBegins(s: Reorder, sequence: U16, packet: Packet, from: nat, start: U32)
    requires OnTime(s, from, start) && Resyncs(s, sequence)
    ensures OnTime(Flush(s), from, start) && Flush(s).held == map[] && s.out <= Flush(s).out
    ensures var after := Push(s, sequence, packet);
      Since(after, Cut(|Flush(s).out|, sequence, packet)) && Flush(s).out <= after.out
  {
    hide Since, OnTime, Drain, Shrink, Distance;
    OnTimeNext(s, from, start);
    ShrinkOnTime(s, 0, from, start);
    FlushEmpties(s);
    var flushed := Flush(s);
    assert flushed.held[sequence := packet] == map[sequence := packet];
    BeginsStretch(flushed, sequence, packet);
  }

  // Whole runs.

  /** The packets among the arrivals that begin the stream: the first of all, and each that resynchronises. */
  function Cuts(s: Reorder, arrivals: seq<Arrival>): seq<Cut>
    requires Settled(s)
    decreases |arrivals|
  {
    if arrivals == [] then []
    else
      var sequence, packet := Sequence(arrivals[0].number), arrivals[0].packet;
      PushSettles(s, sequence, packet);
      (if s.next.None? || Resyncs(s, sequence) then [Cut(|Flush(s).out|, sequence, packet)] else [])
      + Cuts(Push(s, sequence, packet), arrivals[1..])
  }

  /** How far the stretch of a cut reaches: to the next cut, or to the end. */
  function Reaches(out: seq<Emitted>, cuts: seq<Cut>, i: nat): nat
    requires i < |cuts|
  {
    if i + 1 < |cuts| then cuts[i + 1].from else |out|
  }

  /** The cuts split all that was let out into stretches, each in order and on its own clock. */
  ghost predicate Splits(out: seq<Emitted>, cuts: seq<Cut>) {
    && (if cuts == [] then out == [] else cuts[0].from == 0)
    && forall i :: 0 <= i < |cuts| ==>
      && cuts[i].from <= Reaches(out, cuts, i) <= |out|
      && From(out[cuts[i].from..Reaches(out, cuts, i)], cuts[i])
  }

  lemma LastReaches(out: seq<Emitted>, more: seq<Emitted>, cuts: seq<Cut>)
    requires cuts != [] && Splits(out, cuts) && out <= more
    requires From(more[cuts[|cuts| - 1].from..], cuts[|cuts| - 1])
    ensures Splits(more, cuts)
  {
    hide From;
    forall i | 0 <= i < |cuts|
      ensures cuts[i].from <= Reaches(more, cuts, i) <= |more|
      ensures From(more[cuts[i].from..Reaches(more, cuts, i)], cuts[i])
    {
      var from, to := cuts[i].from, Reaches(out, cuts, i);
      assert from <= to <= |out|;
      if i + 1 < |cuts| {
        SameStretch(out, more, from, to);
      } else {
        assert more[from..|more|] == more[from..];
      }
    }
  }

  lemma SameStretch(out: seq<Emitted>, more: seq<Emitted>, from: nat, to: nat)
    requires out <= more && from <= to <= |out|
    ensures more[from..to] == out[from..to]
  {
  }

  lemma CutSplits(out: seq<Emitted>, more: seq<Emitted>, cuts: seq<Cut>, cut: Cut)
    requires Splits(out, cuts) && out <= more && cut.from == |out|
    requires From(more[cut.from..], cut)
    ensures Splits(more, cuts + [cut])
  {
    hide From;
    var all := cuts + [cut];
    forall i | 0 <= i < |all|
      ensures all[i].from <= Reaches(more, all, i) <= |more|
      ensures From(more[all[i].from..Reaches(more, all, i)], all[i])
    {
      if i < |cuts| {
        var from, to := cuts[i].from, Reaches(out, cuts, i);
        assert from <= to <= |out| && Reaches(more, all, i) == to;
        SameStretch(out, more, from, to);
      } else {
        assert more[cut.from..|more|] == more[cut.from..];
      }
    }
  }

  /** What is known after some arrivals that made these cuts. */
  ghost predicate Followed(s: Reorder, cuts: seq<Cut>) {
    && Settled(s) && Splits(s.out, cuts)
    && (s.next.None? <==> cuts == [])
    && (cuts != [] ==> Since(s, cuts[|cuts| - 1]))
  }

  lemma GoesOnFollowed(s: Reorder, after: Reorder, cuts: seq<Cut>)
    requires Followed(s, cuts) && cuts != [] && Settled(after) && s.out <= after.out
    requires OnTime(after, cuts[|cuts| - 1].from, cuts[|cuts| - 1].packet.timestamp)
    ensures Followed(after, cuts)
  {
    hide OnTime, Settled, Splits, From;
    var cut := cuts[|cuts| - 1];
    SinceGoesOn(s, after, cut);
    SinceOnTime(after, cut);
    LastReaches(s.out, after.out, cuts);
  }

  lemma PushFollowed(s: Reorder, a: Arrival, cuts: seq<Cut>)
    requires Followed(s, cuts)
    ensures Followed(Push(s, Sequence(a.number), a.packet), cuts + Cuts(s, [a]))
  {
    hide OnTime, Since, Splits, Push, Resyncs, Flush, From, Sequence;
    var sequence, packet := Sequence(a.number), a.packet;
    var after := Push(s, sequence, packet);
    PushSettles(s, sequence, packet);
    assert [a][1..] == [];
    var cut := Cut(|Flush(s).out|, sequence, packet);
    assert Cuts(s, [a]) == if s.next.None? || Resyncs(s, sequence) then [cut] else [];
    if s.next.None? {
      NothingToFlush(s);
      FirstBegins(s, sequence, packet);
      SinceOnTime(after, cut);
      CutSplits(s.out, after.out, cuts, cut);
    } else {
      var last := cuts[|cuts| - 1];
      SinceOnTime(s, last);
      if Resyncs(s, sequence) {
        ResyncBegins(s, sequence, packet, last.from, last.packet.timestamp);
        FlushFollowed(s, cuts);
        SinceOnTime(after, cut);
        CutSplits(Flush(s).out, after.out, cuts, cut);
      } else {
        PushGoesOn(s, sequence, packet, last.from, last.packet.timestamp);
        GoesOnFollowed(s, after, cuts);
        assert cuts + [] == cuts;
      }
    }
  }

  lemma NothingToFlush(s: Reorder)
    requires s.next.None? && s.held == map[]
    ensures Flush(s) == s
  {
  }

  lemma FlushFollowed(s: Reorder, cuts: seq<Cut>)
    requires Followed(s, cuts)
    ensures Followed(Flush(s), cuts)
  {
    hide OnTime, Since, Splits, From, Shrink;
    if s.next.Some? {
      var cut := cuts[|cuts| - 1];
      SinceOnTime(s, cut);
      ShrinkOnTime(s, 0, cut.from, cut.packet.timestamp);
      ShrinkSettles(s, 0);
      GoesOnFollowed(s, Flush(s), cuts);
    }
  }

  lemma {:induction false} RunFollowed(s: Reorder, arrivals: seq<Arrival>, cuts: seq<Cut>)
    requires Followed(s, cuts)
    ensures Followed(Run(s, arrivals), cuts + Cuts(s, arrivals))
    decreases |arrivals|
  {
    hide Since, Splits, Push, Resyncs, Flush, Sequence;
    if arrivals == [] {
      assert cuts + [] == cuts;
    } else {
      var a := arrivals[0];
      PushFollowed(s, a, cuts);
      CutsJoin(s, arrivals);
      var after := Push(s, Sequence(a.number), a.packet);
      RunFollowed(after, arrivals[1..], cuts + Cuts(s, [a]));
      assert cuts + Cuts(s, [a]) + Cuts(after, arrivals[1..]) == cuts + (Cuts(s, [a]) + Cuts(after, arrivals[1..]));
    }
  }

  lemma CutsJoin(s: Reorder, arrivals: seq<Arrival>)
    requires Settled(s) && arrivals != []
    ensures var a := arrivals[0];
      var after := Push(s, Sequence(a.number), a.packet);
      && Settled(after)
      && Cuts(s, arrivals) == Cuts(s, [a]) + Cuts(after, arrivals[1..])
  {
    hide Settled, Push, Resyncs, Flush, Sequence;
    var a := arrivals[0];
    PushSettles(s, Sequence(a.number), a.packet);
    assert [a][1..] == [];
  }

  lemma FollowedSplits(s: Reorder, cuts: seq<Cut>)
    requires Followed(s, cuts)
    ensures Settled(s) && Splits(s.out, cuts) && (s.held != map[] ==> s.next.Some?)
    ensures cuts != [] ==> OnTime(s, cuts[|cuts| - 1].from, cuts[|cuts| - 1].packet.timestamp)
  {
    hide Splits, OnTime, From;
  }

  lemma SomeCuts(window: nat, arrivals: seq<Arrival>)
    ensures Settled(New(window)) && (arrivals == [] <==> Cuts(New(window), arrivals) == [])
  {
    hide Push, Resyncs, Flush, Sequence;
  }

  lemma NewFollowed(window: nat)
    ensures Followed(New(window), [])
  {
  }

  /** Through any run, all that has been let out splits exactly where the first packet and each resynchronisation came,
      into stretches that begin with those packets and are in order and on time; the end of the stream lets out the
      rest on the clock of the last. */
  lemma RunOnTime(window: nat, arrivals: seq<Arrival>)
    ensures var s := Run(New(window), arrivals);
      var cuts := Cuts(New(window), arrivals);
      && Settled(s)
      && Splits(s.out, cuts)
      && Splits(Flush(s).out, cuts)
      && (arrivals == [] <==> cuts == [])
      && (cuts != [] ==> OnTime(s, cuts[|cuts| - 1].from, cuts[|cuts| - 1].packet.timestamp))
  {
    hide *;
    NewFollowed(window);
    RunFollowed(New(window), arrivals, []);
    var s, cuts := Run(New(window), arrivals), Cuts(New(window), arrivals);
    assert [] + cuts == cuts;
    FollowedSplits(s, cuts);
    FlushFollowed(s, cuts);
    FollowedSplits(Flush(s), cuts);
    SomeCuts(window, arrivals);
  }

  // Samples are time.

  function SampleCount(frames: seq<Samples>): nat {
    if frames == [] then 0 else SampleCount(frames[..|frames| - 1]) + |frames[|frames| - 1]|
  }

  lemma {:induction false} CountAppends(a: seq<Samples>, b: seq<Samples>)
    ensures SampleCount(a + b) == SampleCount(a) + SampleCount(b)
    decreases |b|
  {
    if b == [] {
      assert a + b == a;
    } else {
      CountAppends(a, b[..|b| - 1]);
      assert (a + b)[..|a + b| - 1] == a + b[..|b| - 1];
    }
  }

  lemma CountSingle(samples: Samples)
    ensures SampleCount([samples]) == |samples|
  {
    assert [samples][..0] == [];
  }

  lemma CountOne(e: Emitted)
    requires e.gap <= 8000
    ensures SampleCount(FramesOf(e)) == e.gap + |e.samples|
  {
    CountSingle(e.samples);
    if e.gap > 0 {
      CountSingle(Silence(e.gap));
      CountAppends([Silence(e.gap)], [e.samples]);
    } else {
      assert FramesOf(e) == [e.samples];
    }
  }

  lemma {:induction false} CountIsElapsed(out: seq<Emitted>)
    requires forall e :: e in out ==> e.gap <= 8000 && |e.samples| < 0x1_0000_0000
    ensures SampleCount(Frames(out)) == Elapsed(out)
  {
    hide FramesOf;
    if out != [] {
      var n := |out| - 1;
      assert out[n] in out;
      CountIsElapsed(out[..n]);
      CountOne(out[n]);
      CountAppends(Frames(out[..n]), FramesOf(out[n]));
    }
  }

  /** Where no gap is over the longest that is filled, each packet of a stretch comes after exactly as many samples,
      with the silence before it, as its timestamp is after that of the packet which began the stretch. */
  lemma SamplesAreTime(stretch: seq<Emitted>, cut: Cut, j: nat)
    requires From(stretch, cut) && j < |stretch|
    requires forall e :: e in stretch ==> e.gap <= 8000 && |e.samples| < 0x1_0000_0000
    ensures stretch[j].timestamp
      == Wrap32(cut.packet.timestamp + SampleCount(Frames(stretch[..j])) + stretch[j].gap)
  {
    hide Elapsed, Frames, SampleCount, Wrap32;
    assert Punctual(stretch, cut.packet.timestamp, j);
    CountIsElapsed(stretch[..j]);
  }
}
