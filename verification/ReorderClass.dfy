/** The reordering of received packets as an object that changes, against its specification. */
module ReorderClass {
  import opened Prelude
  import R = Reorder

  class Reorder {
    const window: nat
    var next: Option<R.Position>
    var held: map<nat, R.Packet>
    /** Everything let out so far. */
    ghost var log: seq<R.Emitted>

    ghost function View(): R.Reorder
      reads this
    {
      R.Reorder(window, next, held, log)
    }

    ghost predicate Valid()
      reads this
    {
      R.Settled(View())
    }

    constructor (window: nat)
      ensures View() == R.New(window) && Valid()
    {
      this.window := window;
      next, held, log := None, map[], [];
    }

    /** The modelled push; `out` gains the frames of exactly the packets that the log gains. */
    method Push(sequence: R.U16, timestamp: R.U32, samples: R.Samples, out: seq<R.Samples>)
      returns (after: seq<R.Samples>)
      requires Valid()
      modifies this
      ensures Valid() && View() == R.Push(old(View()), sequence, R.Packet(timestamp, samples))
      ensures old(log) <= log && after == out + R.Frames(log[|old(log)|..])
    {
      hide R.Drain, R.Shrink, R.Frames, R.Distance;
      ghost var start := View();
      ghost var packet := R.Packet(timestamp, samples);
      R.PushSettles(View(), sequence, packet);
      if next.None? {
        next := Some(R.Position(sequence, timestamp));
      }
      NothingNew(View());
      var at := next.value;
      var distance := R.Distance(sequence, at.sequence);
      if Magnitude(distance) > R.RESYNC_DISTANCE {
        after := Flush(out);
        ghost var flushed := log;
        next := Some(R.Position(sequence, timestamp));
        held := held[sequence := R.Packet(timestamp, samples)];
        after := Drain(after);
        FramesJoin(start.out, flushed, log);
        return;
      }
      after := out;
      if distance < 0 {
        return;
      }
      held := held[at.sequence + distance := R.Packet(timestamp, samples)];
      R.DrainShrinks(View());
      after := Drain(after);
      ghost var drained := log;
      after := ShrinkTo(window, after);
      FramesJoin(start.out, drained, log);
    }

    /** The modelled flush, with the frames of what it let out. */
    method Flush(out: seq<R.Samples>) returns (after: seq<R.Samples>)
      requires held != map[] ==> next.Some?
      modifies this
      ensures View() == R.Flush(old(View()))
      ensures old(log) <= log && after == out + R.Frames(log[|old(log)|..])
    {
      hide R.Shrink, R.Frames;
      NothingNew(View());
      if next.None? {
        after := out;
      } else {
        after := ShrinkTo(0, out);
      }
    }

    /** Gives up on what is missing until no more than `most` packets wait. */
    method ShrinkTo(most: nat, out: seq<R.Samples>) returns (after: seq<R.Samples>)
      requires next.Some?
      modifies this
      ensures View() == R.Shrink(old(View()), most)
      ensures old(log) <= log && after == out + R.Frames(log[|old(log)|..])
    {
      hide R.Drain, R.Frames, R.SkipToFirstHeld;
      ghost var start := View();
      NothingNew(start);
      after := out;
      while |held| > most
        invariant next.Some? && R.Shrink(View(), most) == R.Shrink(start, most)
        invariant start.out <= log && after == out + R.Frames(log[|start.out|..])
        decreases |held|
      {
        ghost var before := View();
        R.SkippedShrinks(before);
        R.SkipHolds(before);
        R.DrainShrinks(R.SkipToFirstHeld(before));
        SkipToFirstHeld();
        after := Drain(after);
        FramesJoin(start.out, before.out, log);
      }
    }

    method Drain(out: seq<R.Samples>) returns (after: seq<R.Samples>)
      modifies this
      ensures View() == R.Drain(old(View()))
      ensures old(log) <= log && after == out + R.Frames(log[|old(log)|..])
    {
      hide R.Frames, R.FramesOf, R.Wrap32, R.Length32;
      ghost var start := View();
      NothingNew(start);
      after := out;
      while next.Some? && next.value.sequence in held
        invariant R.Drain(View()) == R.Drain(start)
        invariant start.out <= log && after == out + R.Frames(log[|start.out|..])
        decreases |held|
      {
        ghost var before := View();
        var at := next.value;
        var packet := held[at.sequence];
        held := held - {at.sequence};
        var gap := R.Wrap32(packet.timestamp - at.timestamp);
        if gap > 0 && gap <= R.MAX_GAP_SAMPLES {
          after := after + [R.Silence(gap)];
        }
        next := Some(R.Position(at.sequence + 1, R.Wrap32(packet.timestamp + R.Length32(packet.samples))));
        after := after + [packet.samples];
        ghost var emitted := R.Emitted(at.sequence, packet.timestamp, gap, packet.samples);
        log := log + [emitted];
        OneMore(start.out, before.out, emitted);
      }
    }

    method SkipToFirstHeld()
      modifies this`next
      ensures View() == R.SkipToFirstHeld(old(View()))
    {
      if next.Some? && held != map[] {
        assert held.Keys != {} by {
          var k :| k in held;
          assert k in held.Keys;
        }
        next := Some(next.value.(sequence := R.LeastOf(held.Keys)));
      }
    }
  }

  lemma NothingNew(s: R.Reorder)
    ensures R.Frames(s.out[|s.out|..]) == [] && s.out <= s.out
    ensures forall out: seq<R.Samples> :: out + R.Frames(s.out[|s.out|..]) == out
  {
  }

  lemma {:induction false} FramesAppend(a: seq<R.Emitted>, b: seq<R.Emitted>)
    ensures R.Frames(a + b) == R.Frames(a) + R.Frames(b)
    decreases |b|
  {
    hide R.FramesOf;
    if b == [] {
      assert a + b == a;
    } else {
      FramesAppend(a, b[..|b| - 1]);
      assert (a + b)[..|a + b| - 1] == a + b[..|b| - 1];
    }
  }

  lemma FramesJoin(a: seq<R.Emitted>, b: seq<R.Emitted>, c: seq<R.Emitted>)
    requires a <= b <= c
    ensures R.Frames(c[|a|..]) == R.Frames(b[|a|..]) + R.Frames(c[|b|..])
    ensures forall out: seq<R.Samples> ::
      out + R.Frames(b[|a|..]) + R.Frames(c[|b|..]) == out + R.Frames(c[|a|..])
  {
    hide R.Frames;
    FramesAppend(b[|a|..], c[|b|..]);
    assert c[|a|..] == b[|a|..] + c[|b|..];
  }

  lemma OneMore(a: seq<R.Emitted>, b: seq<R.Emitted>, e: R.Emitted)
    requires a <= b
    ensures R.Frames((b + [e])[|a|..]) == R.Frames(b[|a|..]) + R.FramesOf(e)
    ensures e.gap == 0 || e.gap > R.MAX_GAP_SAMPLES ==> R.FramesOf(e) == [e.samples]
    ensures 0 < e.gap <= R.MAX_GAP_SAMPLES ==> R.FramesOf(e) == [R.Silence(e.gap), e.samples]
  {
    var more := (b + [e])[|a|..];
    assert more == b[|a|..] + [e];
    assert more[..|more| - 1] == b[|a|..];
  }
}
