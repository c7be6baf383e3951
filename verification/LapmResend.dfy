/** Where an end goes on after a REJ, or after the answer to its poll. */
module LapmResend {
  import opened Prelude
  import opened LapmFrame
  import opened Lapm
  import opened LapmPair
  import opened LapmRun
  import opened LapmProgress
  import opened Negotiation
  import XidField

  /** The first packet with an I frame among those that an end sends when asked at these times. */
  function FirstData(x: Half, times: seq<int>): Option<Packet>
    decreases |times|
  {
    if times == [] then None
    else
      var x' := TransmitFrom(x, times[0]);
      if |x'.out| > |x.out| && x'.out[|x.out|].frame.control.I? then Some(x'.out[|x.out|])
      else FirstData(x', times[1..])
  }

  /** The end goes on from the I frame numbered `n`, which is the first that is not acknowledged. */
  ghost predicate GoesOnFrom(x: Half, n: nat) {
    && EndOk(x) && UrgentOk(x.end) && (x.end.state.Connected? || x.end.state.Released?)
    && (x.end.state.Connected? ==> x.end.vs == x.end.va && Acked(x) == n)
  }

  /** The octets of the I frame numbered `n`, if it was made. */
  function Made(log: seq<Octets>, n: nat): seq<Octets> {
    if n < |log| then [log[n]] else []
  }

  predicate IsNumber(p: Packet, n: nat, log: seq<Octets>) {
    && p.frame.control.I? && p.ns == n && p.frame.control.ns == n % 128
    && Made(log, n) <= [p.frame.info]
  }

  lemma SameAfter(a: Seven)
    ensures Lapm.After(a, a) == 0
  {
  }

  /** T401 running out changes neither V(S) nor what was sent, short of a release. */
  lemma GoesOnThroughExpiry(x: Half, n: nat, now: int)
    requires GoesOnFrom(x, n)
    ensures GoesOnFrom(x.(end := Expire(x.end, now)), n)
  {
    hide Calm, EndOk, Expire;
    EndOkSound(x);
    ExpireCalm(x.end, now);
    ExpireLeaves(x.end, now);
    ExpiryKeepsVs(x.end, now);
    CalmEndOk(x, Expire(x.end, now));
  }

  lemma ExpiryKeepsVs(e: End, now: int)
    requires e.state.Connected? || e.state.Released?
    ensures var e' := Expire(e, now); e'.vs == e.vs && e'.va == e.va && (e'.state.Connected? ==> e'.sent == e.sent)
  {
    hide Retry;
  }

  lemma CalmEndOk(x: Half, e: End)
    requires EndOk(x) && Calm(x.end, e) && (x.end.state.Connected? || x.end.state.Released?)
    ensures EndOk(x.(end := e))
  {
    hide Flatten, Lapm.After;
    if x.end.state.Released? {
      assert Gone(x.end, e);
    }
  }

  lemma PayingKeeps(e: End, now: int)
    requires Owes(e.owed)
    ensures var e' := NextNumbered(e, now).0; e' == e.(owed := e'.owed, timer := e'.timer)
  {
    hide Paid, OwedFrame, NextIFrame, Polls, Owes;
  }

  /** A frame without data leaves V(S) and what was sent. */
  lemma NoDataKeeps(e: End, now: int)
    requires NextNumbered(e, now).1.None? || !NextNumbered(e, now).1.value.control.I?
    ensures var e' := NextNumbered(e, now).0; e' == e.(owed := e'.owed, timer := e'.timer)
  {
    hide Paid, OwedFrame, NextIFrame, Polls, Owes, SupervisoryFrame;
    if Owes(e.owed) {
      PayingKeeps(e, now);
    } else {
      NextIFrameIsI(e, now);
      NextIFrameGuards(e, now);
    }
  }

  lemma OwedEndOk(x: Half, e: End)
    requires EndOk(x)
    requires e == x.end.(owed := e.owed, timer := e.timer, urgent := e.urgent)
    ensures EndOk(x.(end := e)) && Acked(x.(end := e)) == Acked(x)
  {
    hide Flatten, Lapm.After;
  }

  lemma FewerUrgentOk(e: End, e': End)
    requires UrgentOk(e) && (e'.urgent == e.urgent || (e.urgent != [] && e'.urgent == e.urgent[1..]))
    ensures UrgentOk(e')
  {
  }

  /** The I frame that goes out at V(S) = V(A) is the first that is not acknowledged. */
  lemma FirstIs(x: Half, n: nat, now: int)
    requires GoesOnFrom(x, n) && x.end.state.Connected? && NextIFrame(x.end, now).1.Some?
    ensures var frame := NextIFrame(x.end, now).1.value;
      && |x.end.sent| <= |x.log| && |x.log| - |x.end.sent| + Lapm.After(x.end.vs, x.end.va) == n
      && IsNumber(Packet(frame, n, x.heard, 0), n, x.log)
  {
    hide EndOk, NextIFrame, Lapm.After, UrgentOk;
    EndOkWindow(x);
    NextIFrameGuards(x.end, now);
    SameAfter(x.end.va);
    if x.end.sent == [] {
      FreshMoves(x, now);
    } else {
      ResendMoves(x, now);
    }
  }

  lemma GoesOnSends(x0: Half, n: nat, now: int)
    requires GoesOnFrom(x0, n)
    ensures var x' := TransmitFrom(x0, now);
      if |x'.out| > |x0.out| && x'.out[|x0.out|].frame.control.I? then IsNumber(x'.out[|x0.out|], n, x0.log)
      else GoesOnFrom(x', n) && x'.log == x0.log
  {
    hide EndOk, Expire, NextNumbered, NextIFrame, Lapm.After, UrgentOk, IsNumber;
    GoesOnThroughExpiry(x0, n, now);
    var e := Expire(x0.end, now);
    var x := x0.(end := e);
    var (e', frame) := NextFrame(x0.end, now);
    if e.urgent != [] {
      FirstUrgentOk(e);
      FewerUrgentOk(e, e');
      OwedEndOk(x, e');
      EndOkAnyway(x.(end := e'), TransmitFrom(x0, now).out);
    } else if e.state.Connected? {
      NumberedIsI(e, now);
      if frame.Some? && frame.value.control.I? {
        FirstIs(x, n, now);
        SameNumber(Packet(frame.value, n, x.heard, 0), TransmitFrom(x0, now).out[|x0.out|], n, x.log);
      } else {
        NoDataKeeps(e, now);
        FewerUrgentOk(e, e');
        OwedEndOk(x, e');
        EndOkAnyway(x.(end := e'), TransmitFrom(x0, now).out);
      }
    }
  }

  lemma FirstUrgentOk(e: End)
    requires UrgentOk(e) && e.urgent != []
    ensures e.urgent[0].0.control.U?
  {
  }

  lemma NumberedIsI(e: End, now: int)
    ensures var frame := NextNumbered(e, now).1;
      frame.Some? && frame.value.control.I? ==> NextIFrame(e, now).1 == frame
  {
    hide NextIFrame, Paid, Polls;
  }

  lemma SameNumber(p: Packet, q: Packet, n: nat, log: seq<Octets>)
    requires IsNumber(p, n, log) && q.frame == p.frame && q.ns == n
    ensures IsNumber(q, n, log)
  {
  }

  lemma {:induction false} FirstDataIs(x: Half, n: nat, times: seq<int>)
    requires GoesOnFrom(x, n)
    ensures FirstData(x, times).Some? ==> IsNumber(FirstData(x, times).value, n, x.log)
    decreases |times|
  {
    hide GoesOnFrom, TransmitFrom, IsNumber;
    if times != [] {
      GoesOnSends(x, n, times[0]);
      if FirstData(x, times) == FirstData(TransmitFrom(x, times[0]), times[1..]) {
        var x' := TransmitFrom(x, times[0]);
        if !(|x'.out| > |x.out| && x'.out[|x.out|].frame.control.I?) {
          FirstDataIs(x', n, times[1..]);
        }
      }
    }
  }

  /** A REJ outside timer recovery, or the answer to the poll in it. */
  predicate CallsBack(e: End, f: Frame) {
    && f.control.S? && f.control.kind != Srej
    && ((f.control.kind == Rej && !e.recovery) || (f.cr == e.originate && f.control.pf && e.recovery))
  }

  lemma SupervisedGoesBack(e: End, kind: Supervisory, nr: Seven, pf: bool, command: bool, now: int)
    requires e.va == nr && kind != Srej
    requires (kind == Rej && !e.recovery) || (!command && pf && e.recovery)
    ensures var e' := Supervised(e, kind, nr, pf, command, now);
      e'.vs == e'.va == nr && e'.state == e.state && e'.urgent == e.urgent && e'.vr == e.vr && e'.sent == e.sent
  {
  }

  lemma GoesBack(y: Half, x: Half, p: Packet, now: int)
    requires Ahead(p, y, x) && Joined(y, x) && y.end.state.Connected? && UrgentOk(y.end) && CallsBack(y.end, p.frame)
    ensures var e := ReceiveNumbered(y.end, p.frame, p.frame.cr == !y.end.originate, now);
      GoesOnFrom(y.(end := e), p.nr) && e.vr == y.end.vr
  {
    hide Joined, EndOk, Carries, Acknowledge, Supervised, Sound, Calm, Lapm.After;
    var c := p.frame.control;
    var command := p.frame.cr == !y.end.originate;
    ConnectedKnows(y);
    JoinedSound(y, x);
    Acknowledged(y, x, p, now);
    var e1 := Acknowledge(y.end, c.nr, now).0;
    SupervisedGoesBack(e1, c.kind, c.nr, c.pf, command, now);
    var y1 := y.(end := e1);
    EndOkSound(y1);
    SupervisedCalm(e1, c.kind, c.nr, c.pf, command, now);
    CalmEndOk(y1, Supervised(e1, c.kind, c.nr, c.pf, command, now));
    AcknowledgeLeaves(y.end, c.nr, now);
  }

  lemma Acknowledged(y: Half, x: Half, p: Packet, now: int)
    requires Ahead(p, y, x) && Joined(y, x) && y.end.state.Connected? && p.frame.control.S?
    ensures var (e, valid) := Acknowledge(y.end, p.frame.control.nr, now);
      && valid && e.state.Connected? && e.va == p.frame.control.nr && e.vr == y.end.vr && e.recovery == y.end.recovery
      && EndOk(y.(end := e)) && Acked(y.(end := e)) == p.nr
  {
    hide EndOk, Carries, Acknowledge, Flatten, Lapm.After, DataFlies, AcksFly;
    ConnectedKnows(y);
    AcknowledgeMoves(y, p.nr, now);
  }

  /** T401 having been looked at makes no difference to what the end is told. */
  lemma ArrivesThroughExpiry(y: Half, x: Half, p: Packet, now: int)
    requires Ahead(p, y, x) && Joined(y, x) && WellFormed(p.frame) && p.frame.control.S?
    requires Expire(y.end, now).state.Connected?
    ensures var y1 := y.(end := Expire(y.end, now));
      && Ahead(p, y1, x) && Joined(y1, x) && y1.end.vr == y.end.vr && y1.end.originate == y.end.originate
      && ArriveAt(y, p, now).end == ReceiveNumbered(y1.end, p.frame, p.frame.cr == !y.end.originate, now)
  {
    hide Joined, Ahead, Expire, Bytes, Parse, ReceiveNumbered, Calm, Sound;
    ParsesBytes(p.frame);
    ExpiredAhead(y, x, p, now);
    JoinedSound(y, x);
    ExpireCalm(y.end, now);
    CalmReads(y.end, Expire(y.end, now));
    ExpireLeaves(y.end, now);
  }

  lemma ExpiredUrgentOk(e: End, now: int)
    requires UrgentOk(e) && Expire(e, now).state.Connected?
    ensures UrgentOk(Expire(e, now))
  {
    hide Expire;
    ExpireLeaves(e, now);
  }

  /**
   * After a REJ outside timer recovery, or the answer to its poll in it, the next I frame that an end sends is the one
   * whose number the answer asked for, though its number is sent modulo 128: the same octets again if it was made
   * before, whatever else the end has to send first.
   */
  lemma ResendsFrom(y: Half, x: Half, now: int, times: seq<int>)
    requires Joined(y, x) && UrgentOk(y.end) && x.out != [] && WellFormed(x.out[0].frame)
    requires Expire(y.end, now).state.Connected? && CallsBack(Expire(y.end, now), x.out[0].frame)
    ensures var p := x.out[0];
      var next := FirstData(ArriveAt(y, p, now), times);
      next.Some? ==> IsNumber(next.value, p.nr, y.log)
  {
    hide Joined, Ahead, EndOk, Expire, UrgentOk, CallsBack, GoesOnFrom, IsNumber, FirstData, ReceiveNumbered, Bytes,
      Receive;
    var p := x.out[0];
    HeadIsAhead(y, x);
    var x1 := x.(out := x.out[1..]);
    CallsBackS(Expire(y.end, now), p.frame);
    ArrivesThroughExpiry(y, x1, p, now);
    ExpiredUrgentOk(y.end, now);
    var y1 := y.(end := Expire(y.end, now));
    GoesBack(y1, x1, p, now);
    SameHalf(y, p, now);
    FirstDataIs(ArriveAt(y, p, now), p.nr, times);
  }

  lemma CallsBackS(e: End, f: Frame)
    requires CallsBack(e, f)
    ensures f.control.S?
  {
  }

  lemma SameHalf(y: Half, p: Packet, now: int)
    requires Receive(y.end, Bytes(p.frame), now).vr == y.end.vr
    ensures ArriveAt(y, p, now) == y.(end := Receive(y.end, Bytes(p.frame), now))
  {
    hide Receive, Bytes;
  }

  lemma TalkingUrgentOk(s: Pair, offer: Option<Directions>, offer': Option<Directions>)
    requires Talking(s, offer, offer')
    ensures UrgentOk(s.caller.end) && UrgentOk(s.called.end)
  {
    hide XidField.Bytes, Agreement, Mirrored, Reply, HasSettled;
  }

  /** So it is in every run, at either end. */
  lemma ResendsInRuns(
      s: Pair, side: Side, offer: Option<Directions>, offer': Option<Directions>, now: int, times: seq<int>)
    requires ValidOffer(offer) && ValidOffer(offer') && Reachable(s, offer, offer') && At(s, Other(side)).out != []
    requires Expire(At(s, side).end, now).state.Connected?
    requires CallsBack(Expire(At(s, side).end, now), At(s, Other(side)).out[0].frame)
    ensures var y, p := At(s, side), At(s, Other(side)).out[0];
      var next := FirstData(ArriveAt(y, p, now), times);
      next.Some? ==> IsNumber(next.value, p.nr, y.log)
  {
    hide Reachable, Joined, Talking, UrgentOk, Expire, CallsBack, IsNumber, FirstData, Receive, Bytes;
    ReachableOk(s, offer, offer');
    TalkingUrgentOk(s, offer, offer');
    JoinedBothWays(s.caller, s.called);
    CallsBackS(Expire(At(s, side).end, now), At(s, Other(side)).out[0].frame);
    ArrivalWellFormed(s, Other(side), offer, offer');
    ResendsFrom(At(s, side), At(s, Other(side)), now, times);
  }

  lemma ArrivalWellFormed(s: Pair, side: Side, offer: Option<Directions>, offer': Option<Directions>)
    requires Talking(s, offer, offer') && At(s, side).out != []
    ensures WellFormed(At(s, side).out[0].frame)
  {
    hide Talking, XidField.Bytes, Reply, HasSettled;
    match side
    case Caller =>
      CalledPops(s, offer, offer');
      CallerFrameWellFormed(s.caller.out[0].frame, offer, s.caller.end.state.Negotiating?,
        HasSettled(s.called.end, offer, offer'));
    case Called =>
      CallerPops(s, offer, offer');
      CalledFrameWellFormed(s.called.out[0].frame, Reply(offer, offer'), s.caller.end.state.Negotiating?,
        HasSettled(s.called.end, offer, offer'));
  }
}
