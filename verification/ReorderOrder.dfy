/** Completeness of the reordering: every packet that came in time comes out, once and in order. */
module ReorderOrder {
  import opened Prelude
  import opened Reorder
  import T = ReorderTime

  /** What got here is held from the next number on, and was let out before it, in order and once each; and the next
      number is not past the one after the last that got here. */
  ghost predicate Tracks(s: Reorder, got: map<nat, Packet>) {
    && s.next.Some?
    && var next := s.next.value.sequence;
    && (forall n :: n in s.held <==> n in got && n >= next)
    && (forall n :: n in s.held ==> s.held[n] == got[n])
    && Increasing(s.out)
    && (forall e :: e in s.out ==> e.sequence < next && IsOf(e, got))
    && (forall n :: n in got && n < next ==> LetOut(s.out, n))
    && (got == map[] || Reached(got, next))
  }

  /** What was let out is the packet that got here under its number. */
  predicate IsOf(e: Emitted, got: map<nat, Packet>) {
    e.sequence in got && Packet(e.timestamp, e.samples) == got[e.sequence]
  }

  ghost predicate Reached(got: map<nat, Packet>, next: nat) {
    exists m :: m in got && next <= m + 1
  }

  ghost predicate LetOut(out: seq<Emitted>, n: nat) {
    exists e :: e in out && e.sequence == n
  }

  lemma AppendLetsOut(out: seq<Emitted>, last: Emitted, n: nat)
    requires LetOut(out, n) || n == last.sequence
    ensures LetOut(out + [last], n)
  {
    if n == last.sequence {
      assert last in out + [last];
    } else {
      var e :| e in out && e.sequence == n;
      assert e in out + [last];
    }
  }

  lemma EmitTracks(s: Reorder, got: map<nat, Packet>)
    requires Tracks(s, got) && s.next.value.sequence in s.held
    ensures Tracks(Emit(s), got)
  {
    hide Increasing, LetOut, Wrap32;
    var at := s.next.value.sequence;
    var after := Emit(s);
    var last := after.out[|s.out|];
    assert after.out == s.out + [last] && last.sequence == at;
    AppendIncreases(s.out, last);
    assert Reached(got, at + 1) by {
      assert at in got;
    }
    forall n | n in got && n < at + 1 ensures LetOut(after.out, n) {
      AppendLetsOut(s.out, last, n);
    }
  }

  lemma {:induction false} DrainTracks(s: Reorder, got: map<nat, Packet>)
    requires Tracks(s, got)
    ensures Tracks(Drain(s), got) && s.next.value.sequence <= Drain(s).next.value.sequence
    ensures forall m :: s.next.value.sequence <= m < Drain(s).next.value.sequence ==> m in got
    decreases |s.held|
  {
    hide Tracks;
    assert s.next.Some? by { TracksNext(s, got); }
    if s.next.value.sequence in s.held {
      var at := s.next.value.sequence;
      EmitTracks(s, got);
      HeldIsGot(s, got);
      DrainTracks(Emit(s), got);
      assert Emit(s).next.value.sequence == at + 1;
    }
  }

  lemma TracksNext(s: Reorder, got: map<nat, Packet>)
    requires Tracks(s, got)
    ensures s.next.Some?
  {
  }

  lemma HeldIsGot(s: Reorder, got: map<nat, Packet>)
    requires Tracks(s, got)
    ensures s.next.Some? && forall n :: n in s.held <==> n in got && n >= s.next.value.sequence
  {
  }

  lemma SkipTracks(s: Reorder, got: map<nat, Packet>)
    requires Tracks(s, got) && s.held != map[]
    ensures Tracks(SkipToFirstHeld(s), got)
    ensures SkipToFirstHeld(s).next.value.sequence in s.held
    ensures forall m :: m in got && m >= s.next.value.sequence ==> m >= SkipToFirstHeld(s).next.value.sequence
    ensures s.next.value.sequence <= SkipToFirstHeld(s).next.value.sequence
  {
    hide Increasing, LetOut, IsOf;
    assert s.held.Keys != {} by {
      var k :| k in s.held;
      assert k in s.held.Keys;
    }
  }

  /** Packets already here that were sent after packet `n`. */
  function Overtakers(got: map<nat, Packet>, n: nat): set<nat> {
    set m | m in got && m > n
  }

  /** Every number from `first` on that was given up has been overtaken by more than the window. */
  ghost predicate Patient(s: Reorder, got: map<nat, Packet>, first: nat)
    requires s.next.Some?
  {
    && first <= s.next.value.sequence
    && forall m: nat :: first <= m < s.next.value.sequence && m !in got ==> |Overtakers(got, m)| > s.window
  }

  lemma SkipIsPatient(s: Reorder, got: map<nat, Packet>, first: nat)
    requires Tracks(s, got) && Patient(s, got, first)
    requires |s.held| > s.window && s.next.value.sequence !in s.held
    ensures SkipToFirstHeld(s).next.Some? && Patient(SkipToFirstHeld(s), got, first)
  {
    SkipTracks(s, got);
    var to := SkipToFirstHeld(s).next.value.sequence;
    forall m: nat | first <= m < to && m !in got ensures |Overtakers(got, m)| > s.window {
      if m >= s.next.value.sequence {
        assert s.held.Keys <= Overtakers(got, m);
        SubsetSize(s.held.Keys, Overtakers(got, m));
      }
    }
  }

  lemma {:induction false} ShrinkTracks(s: Reorder, got: map<nat, Packet>, most: nat)
    requires Tracks(s, got) && s.next.value.sequence !in s.held
    ensures Tracks(Shrink(s, most), got)
    decreases |s.held|
  {
    hide Tracks, Drain, SkipToFirstHeld;
    TracksNext(s, got);
    if |s.held| > most {
      var skipped := SkipToFirstHeld(s);
      SkipTracks(s, got);
      TracksNext(skipped, got);
      DrainTracks(skipped, got);
      DrainShrinks(skipped);
      SkipHolds(s);
      ShrinkTracks(Drain(skipped), got, most);
    }
  }

  lemma DrainIsPatient(s: Reorder, got: map<nat, Packet>, first: nat)
    requires Tracks(s, got) && Patient(s, got, first)
    ensures Drain(s).next.Some? && Patient(Drain(s), got, first)
  {
    hide Drain, Tracks, Overtakers;
    TracksNext(s, got);
    DrainTracks(s, got);
    DrainShrinks(s);
  }

  lemma {:induction false} ShrinkIsPatient(s: Reorder, got: map<nat, Packet>, first: nat)
    requires Tracks(s, got) && s.next.value.sequence !in s.held && Patient(s, got, first)
    ensures var after := Shrink(s, s.window); after.next.Some? && Patient(after, got, first)
    decreases |s.held|
  {
    hide Tracks, Drain, SkipToFirstHeld, Patient;
    TracksNext(s, got);
    if |s.held| > s.window {
      var skipped := SkipToFirstHeld(s);
      SkipTracks(s, got);
      SkipIsPatient(s, got, first);
      SkipHolds(s);
      DrainTracks(skipped, got);
      DrainIsPatient(skipped, got, first);
      DrainShrinks(skipped);
      ShrinkIsPatient(Drain(skipped), got, first);
    }
  }

  /** Within half the range of a sequence number, its distance is that of the numbers themselves. */
  lemma DistanceIs(number: nat, next: nat)
    requires -0x8000 <= number - next < 0x8000
    ensures Distance(Sequence(number), next) == number - next
  {
    var a, r, d := number / 0x1_0000, number % 0x1_0000, number - next;
    assert number == 0x1_0000 * a + r;
    if d >= 0 {
      RemainderIs(r - next, -a, d);
    } else {
      RemainderIs(r - next, -a - 1, d + 0x1_0000);
    }
  }

  lemma RemainderIs(x: int, k: int, r: int)
    requires x == r + 0x1_0000 * k && 0 <= r < 0x1_0000
    ensures x % 0x1_0000 == r
  {
  }

  function Added(s: Reorder, a: Arrival): Reorder {
    s.(held := s.held[a.number := a.packet])
  }

  lemma PushIs(s: Reorder, a: Arrival)
    requires s.next.Some?
    requires s.next.value.sequence <= a.number <= s.next.value.sequence + 3000
    ensures Drain(Added(s, a)).next.Some?
    ensures Push(s, Sequence(a.number), a.packet) == Shrink(Drain(Added(s, a)), s.window)
  {
    hide Drain, Shrink, Flush, Distance, Sequence;
    DistanceIs(a.number, s.next.value.sequence);
    DrainShrinks(Added(s, a));
  }

  lemma NotGivenUp(s: Reorder, got: map<nat, Packet>, first: nat, a: Arrival)
    requires s.next.Some? && Patient(s, got, first)
    requires a.number !in got && first <= a.number && |Overtakers(got, a.number)| <= s.window
    ensures a.number >= s.next.value.sequence
  {
    hide Overtakers;
  }

  /** A packet that has not been given up, and is not too far ahead, is put in its place. */
  lemma PushTracks(s: Reorder, got: map<nat, Packet>, first: nat, a: Arrival)
    requires a.number !in got && first <= a.number
    requires |Overtakers(got, a.number)| <= s.window
    requires Settled(s) && Tracks(s, got) && Patient(s, got, first)
    requires a.number <= s.next.value.sequence + 3000
    ensures var after := Push(s, Sequence(a.number), a.packet);
      && Tracks(after, got[a.number := a.packet])
      && Settled(after) && after.window == s.window
      && after.next.Some? && Patient(after, got[a.number := a.packet], first)
  {
    hide Drain, Shrink, Tracks, Patient, Settled, Overtakers, Sequence, Push;
    var added, more := Added(s, a), got[a.number := a.packet];
    TracksNext(s, got);
    NotGivenUp(s, got, first, a);
    PushIs(s, a);
    AddTracks(s, got, a);
    AddIsPatient(s, got, first, a);
    DrainTracks(added, more);
    DrainIsPatient(added, more, first);
    DrainShrinks(added);
    ShrinkTracks(Drain(added), more, s.window);
    ShrinkIsPatient(Drain(added), more, first);
    PushSettles(s, Sequence(a.number), a.packet);
  }

  lemma AddTracks(s: Reorder, got: map<nat, Packet>, a: Arrival)
    requires Tracks(s, got) && a.number !in got && a.number >= s.next.value.sequence
    ensures Tracks(Added(s, a), got[a.number := a.packet])
  {
    hide Increasing;
    var more := got[a.number := a.packet];
    forall n | n in more && n < s.next.value.sequence ensures LetOut(s.out, n) {
      assert n in got;
    }
    assert a.number in more && s.next.value.sequence <= a.number + 1;
    assert Reached(more, s.next.value.sequence);
    forall e | e in s.out ensures IsOf(e, more) {
      assert IsOf(e, got);
    }
  }

  lemma AddIsPatient(s: Reorder, got: map<nat, Packet>, first: nat, a: Arrival)
    requires s.next.Some? && Patient(s, got, first)
    ensures Patient(Added(s, a), got[a.number := a.packet], first)
  {
    var more := got[a.number := a.packet];
    forall m: nat | first <= m < s.next.value.sequence && m !in more ensures |Overtakers(more, m)| > s.window {
      SubsetSize(Overtakers(got, m), Overtakers(more, m));
    }
  }

  /** A packet that got here before, is held or was let out, and is not far from what is next. */
  predicate Repeated(s: Reorder, got: map<nat, Packet>, a: Arrival) {
    && s.next.Some? && a.number in got && got[a.number] == a.packet
    && Magnitude(a.number - s.next.value.sequence) <= 3000
  }

  /** A packet that arrives again changes nothing. */
  lemma RepeatChangesNothing(s: Reorder, got: map<nat, Packet>, a: Arrival)
    requires Settled(s) && Tracks(s, got) && Repeated(s, got, a)
    ensures Push(s, Sequence(a.number), a.packet) == s && got[a.number := a.packet] == got
  {
    hide LetOut, Increasing, Distance, Sequence, Reached, IsOf;
    DistanceIs(a.number, s.next.value.sequence);
    if a.number >= s.next.value.sequence {
      assert s.held[a.number := a.packet] == s.held;
    }
  }

  /** Within half the range of the sequence numbers a packet that arrives again changes nothing exactly if it is at
      most 3000 from what is next; from farther off it resynchronises the stream and is let out again. */
  lemma RepeatIsHarmlessExactly(s: Reorder, got: map<nat, Packet>, a: Arrival)
    requires Settled(s) && Tracks(s, got) && a.number in got && got[a.number] == a.packet
    requires -0x8000 <= a.number - s.next.value.sequence < 0x8000
    ensures Push(s, Sequence(a.number), a.packet) == s <==> Repeated(s, got, a)
    ensures T.Resyncs(s, Sequence(a.number)) <==> !Repeated(s, got, a)
    ensures !Repeated(s, got, a) ==>
      var out := Push(s, Sequence(a.number), a.packet).out;
      |s.out| <= |Flush(s).out| < |out| && out[|Flush(s).out|].samples == a.packet.samples
  {
    TracksNext(s, got);
    DistanceIs(a.number, s.next.value.sequence);
    if Repeated(s, got, a) {
      RepeatChangesNothing(s, got, a);
    } else {
      ResyncLetsOut(s, got, Sequence(a.number), a.packet);
    }
  }

  lemma ResyncLetsOut(s: Reorder, got: map<nat, Packet>, sequence: U16, packet: Packet)
    requires Tracks(s, got) && T.Resyncs(s, sequence)
    ensures var out := Push(s, sequence, packet).out;
      |s.out| <= |Flush(s).out| < |out| && out[|Flush(s).out|].samples == packet.samples
  {
    hide Drain, Shrink, Distance, Tracks;
    TracksNext(s, got);
    ShrinkAppends(s, 0);
    FlushEmpties(s);
    var flushed := Flush(s);
    assert flushed.held[sequence := packet] == map[sequence := packet];
    T.FirstIsOut(flushed, sequence, packet);
  }

  lemma {:induction false} ShrinkAppends(s: Reorder, most: nat)
    requires s.next.Some?
    ensures s.out <= Shrink(s, most).out
    decreases |s.held|
  {
    hide Drain, SkipToFirstHeld;
    if |s.held| > most {
      var skipped := SkipToFirstHeld(s);
      SkipHolds(s);
      SkippedShrinks(s);
      DrainShrinks(skipped);
      DrainAppends(skipped);
      ShrinkAppends(Drain(skipped), most);
    }
  }

  /** Arrivals each repeated, or overtaken by no more than the window and not far ahead of what is next. */
  predicate Gentle(s: Reorder, got: map<nat, Packet>, first: nat, arrivals: seq<Arrival>)
    decreases |arrivals|
  {
    arrivals != [] ==>
      var a := arrivals[0];
      && first <= a.number
      && (if a.number in got then Repeated(s, got, a)
          else
            && |Overtakers(got, a.number)| <= s.window
            && (s.next.Some? ==> a.number <= s.next.value.sequence + 3000))
      && Gentle(Push(s, Sequence(a.number), a.packet), got[a.number := a.packet], first, arrivals[1..])
  }

  function Got(got: map<nat, Packet>, arrivals: seq<Arrival>): map<nat, Packet>
    decreases |arrivals|
  {
    if arrivals == [] then got else Got(got[arrivals[0].number := arrivals[0].packet], arrivals[1..])
  }

  /** One gentle arrival. */
  lemma ArrivalTracks(s: Reorder, got: map<nat, Packet>, first: nat, arrivals: seq<Arrival>)
    requires arrivals != [] && Tracks(s, got) && Settled(s) && s.next.Some? && Patient(s, got, first)
    requires Gentle(s, got, first, arrivals)
    ensures var a := arrivals[0];
      var after, more := Push(s, Sequence(a.number), a.packet), got[a.number := a.packet];
      && Tracks(after, more) && Settled(after) && after.window == s.window
      && after.next.Some? && Patient(after, more, first)
      && Gentle(after, more, first, arrivals[1..])
  {
    hide Tracks, Settled, Patient, Push, Overtakers, Repeated;
    var a := arrivals[0];
    if a.number in got {
      RepeatChangesNothing(s, got, a);
    } else {
      PushTracks(s, got, first, a);
    }
  }

  lemma {:induction false} RunTracks(s: Reorder, got: map<nat, Packet>, first: nat, arrivals: seq<Arrival>)
    requires Tracks(s, got) && Settled(s) && s.next.Some? && Patient(s, got, first)
    requires Gentle(s, got, first, arrivals)
    ensures Tracks(Run(s, arrivals), Got(got, arrivals)) && Settled(Run(s, arrivals))
    decreases |arrivals|
  {
    hide Tracks, Settled, Patient, Push, Gentle;
    if arrivals != [] {
      var a := arrivals[0];
      ArrivalTracks(s, got, first, arrivals);
      RunTracks(Push(s, Sequence(a.number), a.packet), got[a.number := a.packet], first, arrivals[1..]);
    }
  }

  lemma SmallSequence(number: nat)
    requires number < 0x1_0000
    ensures Sequence(number) == number
  {
  }

  lemma StartIs(window: nat, a: Arrival)
    requires a.number < 0x1_0000
    ensures var start := Reorder(window, Some(Position(a.number, a.packet.timestamp)), map[], []);
      Push(New(window), Sequence(a.number), a.packet) == Push(start, Sequence(a.number), a.packet)
  {
    hide PushFrom, Sequence;
    SmallSequence(a.number);
  }

  lemma StartTracks(window: nat, a: Arrival)
    requires a.number < 0x1_0000
    ensures var start := Reorder(window, Some(Position(a.number, a.packet.timestamp)), map[], []);
      Tracks(start, map[]) && Patient(start, map[], a.number) && Settled(start)
  {
  }

  lemma FirstTracks(window: nat, a: Arrival)
    requires a.number < 0x1_0000
    ensures var after := Push(New(window), Sequence(a.number), a.packet);
      && Tracks(after, map[a.number := a.packet])
      && Settled(after) && after.window == window
      && after.next.Some? && Patient(after, map[a.number := a.packet], a.number)
  {
    hide Push, Tracks, Patient, Settled, Sequence;
    var start := Reorder(window, Some(Position(a.number, a.packet.timestamp)), map[], []);
    StartIs(window, a);
    assert Overtakers(map[], a.number) == {};
    StartTracks(window, a);
    PushTracks(start, map[], a.number, a);
  }

  /** All that was let out, once, in order, and each as it got here. */
  ghost predicate AllInOrder(out: seq<Emitted>, got: map<nat, Packet>) {
    && Increasing(out)
    && (forall e :: e in out ==> IsOf(e, got))
    && (forall n :: n in got ==> LetOut(out, n))
  }

  lemma FlushAllInOrder(s: Reorder, got: map<nat, Packet>)
    requires Tracks(s, got) && Settled(s)
    ensures s.next.Some? && AllInOrder(Flush(s).out, got)
  {
    hide Shrink, Increasing, LetOut, IsOf;
    ShrinkTracks(s, got, 0);
    ShrinkSettles(s, 0);
    var flushed := Flush(s);
    forall n | n in got ensures LetOut(flushed.out, n) {
      assert n !in flushed.held;
    }
  }

  lemma FirstIsGentle(window: nat, arrivals: seq<Arrival>)
    requires arrivals != [] && Gentle(New(window), map[], arrivals[0].number, arrivals)
    ensures var a := arrivals[0];
      var after := Push(New(window), Sequence(a.number), a.packet);
      Gentle(after, map[a.number := a.packet], a.number, arrivals[1..])
  {
    hide Push, Overtakers, Sequence;
    var a := arrivals[0];
    assert map[][a.number := a.packet] == map[a.number := a.packet];
  }

  /** Whatever order they came in, how often, and through wrap-around, all packets that came are let out once, in
      order, if each is near the number that is next when it comes. */
  lemma EveryPacketInOrder(window: nat, arrivals: seq<Arrival>)
    requires arrivals != [] && arrivals[0].number < 0x1_0000
    requires Gentle(New(window), map[], arrivals[0].number, arrivals)
    ensures var s := Run(New(window), arrivals);
      Settled(s) && s.window == window && AllInOrder(Flush(s).out, Got(map[], arrivals))
  {
    hide Push, Tracks, Settled, Patient, Gentle, Sequence, Flush, AllInOrder;
    var a := arrivals[0];
    FirstTracks(window, a);
    FirstIsGentle(window, arrivals);
    assert map[][a.number := a.packet] == map[a.number := a.packet];
    var after := Push(New(window), Sequence(a.number), a.packet);
    RunTracks(after, map[a.number := a.packet], a.number, arrivals[1..]);
    RunKeepsWindow(after, arrivals[1..]);
    FlushAllInOrder(Run(New(window), arrivals), Got(map[], arrivals));
  }

  // The same in terms of the arrivals alone.

  /** Nothing more than 3000 before this packet, and not before the first, is still missing; and it is new and overtaken
      by no more than the window, or a copy of one that came before with nothing 3000 or more after it here yet. */
  ghost predicate Timely(window: nat, got: map<nat, Packet>, first: nat, a: Arrival) {
    && first <= a.number
    && (forall n: nat :: first <= n < a.number - 3000 ==> n in got)
    && (if a.number in got then
          got[a.number] == a.packet && forall m :: m in got ==> m < a.number + 3000
        else |Overtakers(got, a.number)| <= window)
  }

  ghost predicate AllTimely(window: nat, got: map<nat, Packet>, first: nat, arrivals: seq<Arrival>)
    decreases |arrivals|
  {
    arrivals != [] ==>
      && Timely(window, got, first, arrivals[0])
      && AllTimely(window, got[arrivals[0].number := arrivals[0].packet], first, arrivals[1..])
  }

  lemma TimelyIsNear(s: Reorder, got: map<nat, Packet>, first: nat, a: Arrival)
    requires Tracks(s, got) && Settled(s) && s.next.Some? && Patient(s, got, first)
    requires Timely(s.window, got, first, a)
    ensures a.number <= s.next.value.sequence + 3000
    ensures a.number in got ==> Repeated(s, got, a)
  {
    hide Increasing, LetOut, IsOf, Overtakers;
    var next := s.next.value.sequence;
    assert next !in got;
    if a.number in got {
      assert Reached(got, next);
    }
  }

  lemma {:induction false} TimelyIsGentle(s: Reorder, got: map<nat, Packet>, first: nat, arrivals: seq<Arrival>)
    requires Tracks(s, got) && Settled(s) && s.next.Some? && Patient(s, got, first)
    requires AllTimely(s.window, got, first, arrivals)
    ensures Gentle(s, got, first, arrivals)
    decreases |arrivals|
  {
    hide Tracks, Settled, Patient, Push, Overtakers, Repeated, Sequence;
    if arrivals != [] {
      var a := arrivals[0];
      TimelyIsNear(s, got, first, a);
      if a.number in got {
        RepeatChangesNothing(s, got, a);
      } else {
        PushTracks(s, got, first, a);
      }
      TimelyIsGentle(Push(s, Sequence(a.number), a.packet), got[a.number := a.packet], first, arrivals[1..]);
    }
  }

  /** Whatever order they came in, how often, and through wrap-around, all packets that came are let out once, in order,
      if they were timely: a condition on what came before each of them alone. */
  lemma TimelyPacketsInOrder(window: nat, arrivals: seq<Arrival>)
    requires arrivals != [] && arrivals[0].number < 0x1_0000
    requires AllTimely(window, map[], arrivals[0].number, arrivals)
    ensures var s := Run(New(window), arrivals);
      Settled(s) && s.window == window && AllInOrder(Flush(s).out, Got(map[], arrivals))
  {
    hide Push, Tracks, Settled, Patient, Flush, AllInOrder, Run, Got;
    var a := arrivals[0];
    FirstTracks(window, a);
    assert map[][a.number := a.packet] == map[a.number := a.packet];
    TimelyIsGentle(Push(New(window), Sequence(a.number), a.packet), map[a.number := a.packet], a.number, arrivals[1..]);
    assert Gentle(New(window), map[], a.number, arrivals) by {
      assert |Overtakers(map[], a.number)| <= window;
    }
    EveryPacketInOrder(window, arrivals);
  }
}
