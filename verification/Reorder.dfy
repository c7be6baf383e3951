/** The reordering of received RTP packets as a value, and what every push keeps. */
module Reorder {
  import opened Prelude

  type U16 = x: int | 0 <= x < 0x1_0000
  type U32 = x: int | 0 <= x < 0x1_0000_0000

  const MAX_GAP_SAMPLES := 8000
  const RESYNC_DISTANCE := 3000

  type Samples = seq<int>

  datatype Packet = Packet(timestamp: U32, samples: Samples)

  datatype Position = Position(sequence: nat, timestamp: U32)

  /** A packet let out, and how much time was missing before it. */
  datatype Emitted = Emitted(sequence: nat, timestamp: U32, gap: U32, samples: Samples)

  /** `out` is everything let out so far. */
  datatype Reorder = Reorder(window: nat, next: Option<Position>, held: map<nat, Packet>, out: seq<Emitted>)

  function New(window: nat): Reorder {
    Reorder(window, None, map[], [])
  }

  function Wrap32(x: int): U32 {
    x % 0x1_0000_0000
  }

  /** How far `sequence` is ahead of `next`, taken as the nearer way round. */
  function Distance(sequence: U16, next: nat): int {
    var d := (sequence - next) % 0x1_0000;
    if d < 0x8000 then d else d - 0x1_0000
  }

  /** A frame's length as the 32-bit count that the source makes of it. */
  function Length32(samples: Samples): U32 {
    if |samples| < 0x1_0000_0000 then |samples| else 0
  }

  function LeastOf(keys: set<nat>): (least: nat)
    requires keys != {}
    ensures least in keys && forall k :: k in keys ==> least <= k
  {
    HasLeast(keys);
    assert exists least :: least in keys && forall k :: k in keys ==> least <= k by {
      var m :| IsLeast(keys, m);
      assert m in keys && forall k :: k in keys ==> m <= k;
    }
    var least :| least in keys && forall k :: k in keys ==> least <= k;
    least
  }

  ghost predicate IsLeast(keys: set<nat>, least: nat) {
    least in keys && forall k :: k in keys ==> least <= k
  }

  lemma {:induction false} HasLeast(keys: set<nat>)
    requires keys != {}
    ensures exists least :: IsLeast(keys, least)
  {
    var k :| k in keys;
    var rest := keys - {k};
    if rest == {} {
      assert keys == {k};
      assert IsLeast(keys, k);
    } else {
      HasLeast(rest);
      var least :| IsLeast(rest, least);
      var m := if k < least then k else least;
      forall j | j in keys ensures m <= j {
        assert j == k || j in rest;
      }
      assert IsLeast(keys, m);
    }
  }

  // The operations.

  /** Lets out the packet that is next. */
  function Emit(s: Reorder): Reorder
    requires s.next.Some? && s.next.value.sequence in s.held
  {
    var at := s.next.value;
    var packet := s.held[at.sequence];
    Reorder(
      s.window,
      Some(Position(at.sequence + 1, Wrap32(packet.timestamp + Length32(packet.samples)))),
      s.held - {at.sequence},
      s.out + [Emitted(at.sequence, packet.timestamp, Wrap32(packet.timestamp - at.timestamp), packet.samples)])
  }

  function Drain(s: Reorder): Reorder
    decreases |s.held|
  {
    if s.next.None? || s.next.value.sequence !in s.held then s else Drain(Emit(s))
  }

  function SkipToFirstHeld(s: Reorder): Reorder {
    if s.next.None? || s.held == map[] then s
    else s.(next := Some(s.next.value.(sequence := LeastOf(s.held.Keys))))
  }

  lemma {:induction false} DrainShrinks(s: Reorder)
    ensures |Drain(s).held| <= |s.held|
    ensures s.next.Some? && s.next.value.sequence in s.held ==> |Drain(s).held| < |s.held|
    ensures Drain(s).next.Some? == s.next.Some? && Drain(s).window == s.window
    ensures s.next.Some? ==> Drain(s).next.value.sequence !in Drain(s).held
    decreases |s.held|
  {
    if s.next.Some? && s.next.value.sequence in s.held {
      DrainShrinks(Emit(s));
    }
  }

  /** Gives up on what is missing until no more than `most` packets wait. */
  function Shrink(s: Reorder, most: nat): Reorder
    requires s.next.Some?
    decreases |s.held|
  {
    if |s.held| <= most then s
    else
      DrainShrinks(SkipToFirstHeld(s));
      Shrink(Drain(SkipToFirstHeld(s)), most)
  }

  /** Releases everything held. */
  function Flush(s: Reorder): Reorder
    requires s.held != map[] ==> s.next.Some?
  {
    if s.next.None? then s else Shrink(s, 0)
  }

  /** Where the first packet puts the stream. */
  function Started(s: Reorder, sequence: U16, timestamp: U32): Reorder {
    if s.next.None? then s.(next := Some(Position(sequence, timestamp))) else s
  }

  function PushFrom(s: Reorder, sequence: U16, packet: Packet): Reorder
    requires s.next.Some?
  {
    var next := s.next.value.sequence;
    var d := Distance(sequence, next);
    if Magnitude(d) > RESYNC_DISTANCE then
      var flushed := Flush(s);
      Drain(flushed.(next := Some(Position(sequence, packet.timestamp)), held := flushed.held[sequence := packet]))
    else if d < 0 then s
    else
      var added := s.(held := s.held[next + d := packet]);
      DrainShrinks(added);
      Shrink(Drain(added), s.window)
  }

  function Push(s: Reorder, sequence: U16, packet: Packet): Reorder {
    PushFrom(Started(s, sequence, packet.timestamp), sequence, packet)
  }

  // What every push keeps.

  /** Between pushes nothing that is next is kept back, and no more wait than the window. */
  predicate Settled(s: Reorder) {
    && (s.next.None? ==> s.held == map[])
    && |s.held| <= s.window
    && (s.next.Some? ==> s.next.value.sequence !in s.held)
  }

  lemma {:induction false} ShrinkSettles(s: Reorder, most: nat)
    requires s.next.Some? && s.next.value.sequence !in s.held
    ensures var after := Shrink(s, most);
      && after.next.Some? && after.window == s.window
      && |after.held| <= most
      && after.next.value.sequence !in after.held
    decreases |s.held|
  {
    if |s.held| > most {
      DrainShrinks(SkipToFirstHeld(s));
      ShrinkSettles(Drain(SkipToFirstHeld(s)), most);
    }
  }

  /** After each push no more than the window is held. */
  lemma PushSettles(s: Reorder, sequence: U16, packet: Packet)
    requires Settled(s)
    ensures Settled(Push(s, sequence, packet)) && Push(s, sequence, packet).window == s.window
  {
    hide Drain, Shrink;
    var started := Started(s, sequence, packet.timestamp);
    var next := started.next.value.sequence;
    var d := Distance(sequence, next);
    if Magnitude(d) > RESYNC_DISTANCE {
      ShrinkSettles(started, 0);
      var flushed := Flush(started);
      var at := Some(Position(sequence, packet.timestamp));
      var fresh' := flushed.(next := at, held := flushed.held[sequence := packet]);
      assert |fresh'.held| <= 1;
      DrainShrinks(fresh');
    } else if d >= 0 {
      DrainShrinks(started.(held := started.held[next + d := packet]));
      ShrinkSettles(Drain(started.(held := started.held[next + d := packet])), s.window);
    }
  }

  lemma SkipHolds(s: Reorder)
    ensures SkipToFirstHeld(s).held == s.held && SkipToFirstHeld(s).window == s.window
    ensures SkipToFirstHeld(s).next.Some? == s.next.Some? && SkipToFirstHeld(s).out == s.out
  {
  }

  lemma SkippedShrinks(s: Reorder)
    requires s.next.Some? && s.held != map[]
    ensures |Drain(SkipToFirstHeld(s)).held| < |s.held|
  {
    hide Drain;
    assert s.held.Keys != {} by {
      var k :| k in s.held;
      assert k in s.held.Keys;
    }
    DrainShrinks(SkipToFirstHeld(s));
  }

  lemma {:induction false} FlushEmpties(s: Reorder)
    requires s.next.Some?
    ensures Flush(s).held == map[]
    decreases |s.held|
  {
    hide Drain;
    if s.held != map[] {
      SkippedShrinks(s);
      SkipHolds(s);
      DrainShrinks(SkipToFirstHeld(s));
      FlushEmpties(Drain(SkipToFirstHeld(s)));
    }
  }

  lemma {:induction false} DrainAppends(s: Reorder)
    ensures s.out <= Drain(s).out
    decreases |s.held|
  {
    if s.next.Some? && s.next.value.sequence in s.held {
      DrainAppends(Emit(s));
    }
  }

  // Runs.

  /** A packet by its number before the 16-bit sequence cuts it off. */
  datatype Arrival = Arrival(number: nat, packet: Packet)

  function Sequence(number: nat): U16 {
    number % 0x1_0000
  }

  function Run(s: Reorder, arrivals: seq<Arrival>): Reorder
    decreases |arrivals|
  {
    if arrivals == [] then s
    else Run(Push(s, Sequence(arrivals[0].number), arrivals[0].packet), arrivals[1..])
  }

  lemma {:induction false} RunKeepsWindow(s: Reorder, arrivals: seq<Arrival>)
    requires Settled(s)
    ensures Settled(Run(s, arrivals)) && Run(s, arrivals).window == s.window
    decreases |arrivals|
  {
    hide Push, Settled;
    if arrivals != [] {
      PushSettles(s, Sequence(arrivals[0].number), arrivals[0].packet);
      RunKeepsWindow(Push(s, Sequence(arrivals[0].number), arrivals[0].packet), arrivals[1..]);
    }
  }

  ghost predicate Increasing(out: seq<Emitted>) {
    forall i, j :: 0 <= i < j < |out| ==> out[i].sequence < out[j].sequence
  }

  lemma AppendIncreases(out: seq<Emitted>, last: Emitted)
    requires Increasing(out) && forall e :: e in out ==> e.sequence < last.sequence
    ensures Increasing(out + [last])
  {
    forall i, j | 0 <= i < j < |out| + 1 ensures (out + [last])[i].sequence < (out + [last])[j].sequence {
      if j == |out| {
        assert out[i] in out;
      }
    }
  }

  /** The samples let out for a packet: silence for a gap that is not too long, and its own. */
  function FramesOf(e: Emitted): seq<Samples> {
    (if 0 < e.gap <= MAX_GAP_SAMPLES then [Silence(e.gap)] else []) + [e.samples]
  }

  function Silence(n: nat): (samples: Samples)
    ensures |samples| == n
  {
    seq(n, _ => 0)
  }

  function Frames(out: seq<Emitted>): seq<Samples> {
    if out == [] then [] else Frames(out[..|out| - 1]) + FramesOf(out[|out| - 1])
  }
}
