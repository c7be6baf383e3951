/** How a connected end recovers by polling, and gets one frame after another across. */
module LapmRecovery {
  import opened Prelude
  import opened LapmFrame
  import opened Lapm
  import opened LapmPair
  import opened LapmRun
  import opened LapmSettled
  import opened LapmProgress
  import opened Negotiation
  import T = LapmTimers

  // What an end rests in.

  predicate Able(e: End) {
    e.state.Connected? && !e.peerBusy && e.t401 >= 1 && e.k >= 1 && e.n401 >= 1
  }

  /** T401 is stopped, and the end either owes a poll or goes on from V(A). */
  predicate Firm(e: End) {
    Able(e) && e.timer.None? && if e.recovery then e.owed.poll else e.vs == e.va
  }

  /** In timer recovery, with the poll still to go. */
  predicate Asking(e: End, now: int) {
    Able(e) && e.recovery && e.owed.poll && (e.timer.None? || now < e.timer.value)
  }

  /** In timer recovery, with the poll gone. */
  predicate Asked(e: End, now: int) {
    Able(e) && e.recovery && !Owes(e.owed) && e.timer.Some? && now < e.timer.value
  }

  /** What is acknowledged is among what was sent. */
  predicate Linked(e: End, nr: Seven) {
    Lapm.After(nr, e.va) <= |e.sent|
  }

  predicate SameKind(e: End, e': End) {
    e'.originate == e.originate && e'.k == e.k && e'.n401 == e.n401 && e'.t401 == e.t401
  }

  /** Hearing took nothing from the queue, and began no recovery. */
  predicate Holds(e: End, e': End) {
    && SameKind(e, e') && e'.urgent == e.urgent
    && e'.queue == e.queue && |e'.sent| <= |e.sent| && (e'.recovery ==> e.recovery)
    && e'.owed.poll == e.owed.poll
  }

  function Unacknowledged(e: End, nr: Seven): seq<Octets>
    requires Linked(e, nr)
  {
    e.sent[Lapm.After(nr, e.va)..]
  }

  // What an end hears.

  function Supervises(e: End, command: bool, kind: Supervisory, nr: Seven, pf: bool): Frame {
    Frame(command == !e.originate, S(kind, nr, pf), [])
  }

  /** A frame that arrives before T401 runs out. */
  lemma HearsNumbered(e: End, f: Frame, now: int)
    requires !f.control.U? && WellFormed(f) && e.state.Connected? && (e.timer.None? || now < e.timer.value)
    ensures Receive(e, Bytes(f), now)
      == match f.control
         case I(ns, nr, poll) =>
           if f.cr == !e.originate then Information(e, ns, nr, poll, f.info, now) else e
         case S(kind, nr, pf) => ReceiveSupervisory(e, kind, nr, pf, f.cr == !e.originate, now)
  {
    hide Information, ReceiveSupervisory, Parse, Bytes, Retry, Recover;
    ParsesBytes(f);
  }

  lemma FirmAcknowledges(e: End, nr: Seven, now: int)
    requires Firm(e) && Linked(e, nr)
    ensures var (e', valid) := Acknowledge(e, nr, now);
      && valid && Firm(e') && e'.va == nr
      && e' == e.(sent := Unacknowledged(e, nr), va := nr, vs := e'.vs)
  {
  }

  lemma FirmSupervised(e: End, kind: Supervisory, nr: Seven, pf: bool, command: bool, now: int)
    requires Firm(e) && e.va == nr && (kind == Rr || kind == Rej)
    ensures var e' := Supervised(e, kind, nr, pf, command, now);
      && Firm(e') && Holds(e, e') && e'.vr == e.vr && e'.va == e.va && e'.sent == e.sent
      && e'.owed == if command && pf then e.owed.(finalRr := true) else e.owed
  {
  }

  lemma HoldsOn(e: End, e1: End, e2: End)
    requires Holds(e, e1) && Holds(e1, e2)
    ensures Holds(e, e2)
  {
  }

  lemma AcknowledgeHolds(e: End, nr: Seven, vs: Seven)
    requires Linked(e, nr)
    ensures Holds(e, e.(sent := Unacknowledged(e, nr), va := nr, vs := vs))
  {
    hide Lapm.After;
  }

  /** An RR or REJ leaves an end as firm as it was, and a poll is to be answered. */
  lemma FirmHearsS(e: End, command: bool, kind: Supervisory, nr: Seven, pf: bool, now: int)
    requires Firm(e) && Linked(e, nr) && (kind == Rr || kind == Rej)
    ensures var e' := Receive(e, Bytes(Supervises(e, command, kind, nr, pf)), now);
      && Firm(e') && Holds(e, e') && e'.vr == e.vr
      && e'.owed == if command && pf then e.owed.(finalRr := true) else e.owed
  {
    hide Firm, Holds, Acknowledge, Supervised, Receive, Bytes, Unacknowledged, Linked;
    FirmIs(e);
    HearsNumbered(e, Supervises(e, command, kind, nr, pf), now);
    FirmAcknowledges(e, nr, now);
    var e1 := Acknowledge(e, nr, now).0;
    AcknowledgeHolds(e, nr, e1.vs);
    FirmSupervised(e1, kind, nr, pf, command, now);
    HoldsOn(e, e1, Supervised(e1, kind, nr, pf, command, now));
  }

  lemma FirmIs(e: End)
    requires Firm(e)
    ensures e.state.Connected? && e.timer.None? && !e.peerBusy && (e.recovery ==> e.owed.poll)
  {
  }

  lemma FirmInformed(e: End, ns: Seven, info: Octets)
    requires Firm(e)
    ensures var e' := Informed(e, ns, false, info);
      && Firm(e') && Holds(e, e') && e'.vr == if ns == e.vr then (e.vr + 1) % MODULUS else e.vr
  {
  }

  /** So does an I frame. */
  lemma FirmHearsI(e: End, ns: Seven, nr: Seven, info: Octets, now: int)
    requires Firm(e) && Linked(e, nr)
    ensures var e' := Receive(e, Bytes(Frame(!e.originate, I(ns, nr, false), info)), now);
      && Firm(e') && Holds(e, e') && e'.vr == if ns == e.vr then (e.vr + 1) % MODULUS else e.vr
  {
    hide Firm, Holds, Acknowledge, Informed, Receive, Bytes, Unacknowledged, Linked;
    FirmIs(e);
    HearsNumbered(e, Frame(!e.originate, I(ns, nr, false), info), now);
    FirmAcknowledges(e, nr, now);
    var e1 := Acknowledge(e, nr, now).0;
    AcknowledgeHolds(e, nr, e1.vs);
    FirmInformed(e1, ns, info);
    HoldsOn(e, e1, Informed(e1, ns, false, info));
  }

  lemma AskedAcknowledges(e: End, nr: Seven, now: int)
    requires Asked(e, now) && Linked(e, nr)
    ensures var (e', valid) := Acknowledge(e, nr, now);
      && valid && Asked(e', now) && e'.va == nr
      && e' == e.(sent := Unacknowledged(e, nr), va := nr, vs := e'.vs)
  {
  }

  lemma AskedSupervised(e: End, kind: Supervisory, nr: Seven, pf: bool, now: int)
    requires Asked(e, now) && e.va == nr && (kind == Rr || kind == Rej)
    ensures var e' := Supervised(e, kind, nr, pf, false, now);
      && (if pf then Firm(e') && !e'.recovery else Asked(e', now) && e'.owed == e.owed)
      && !Owes(e'.owed) && e'.va == nr && e'.vr == e.vr && e'.sent == e.sent && Holds(e, e')
  {
  }

  /** An answer with F = 1 ends the recovery, with V(S) at the N(R) that it brought; one without does not. */
  lemma AskedHearsS(e: End, kind: Supervisory, nr: Seven, pf: bool, now: int)
    requires Asked(e, now) && Linked(e, nr) && (kind == Rr || kind == Rej)
    ensures var e' := Receive(e, Bytes(Supervises(e, false, kind, nr, pf)), now);
      && (if pf then Firm(e') && !e'.recovery else Asked(e', now))
      && !Owes(e'.owed) && e'.va == nr && e'.vr == e.vr && e'.sent == Unacknowledged(e, nr) && Holds(e, e')
  {
    hide Asked, Firm, Holds, Acknowledge, Supervised, Receive, Bytes, Unacknowledged, Linked;
    AskedIs(e, now);
    HearsNumbered(e, Supervises(e, false, kind, nr, pf), now);
    AskedAcknowledges(e, nr, now);
    var e1 := Acknowledge(e, nr, now).0;
    AcknowledgeHolds(e, nr, e1.vs);
    AskedSupervised(e1, kind, nr, pf, now);
    HoldsOn(e, e1, Supervised(e1, kind, nr, pf, false, now));
  }

  lemma AskedIs(e: End, now: int)
    requires Asked(e, now)
    ensures e.state.Connected? && e.timer.Some? && now < e.timer.value && !Owes(e.owed)
  {
  }

  // What an end sends.

  /** T401 has been looked at. */
  lemma ExpiresOnce(e: End, now: int)
    requires e.state.Connected? && (e.timer.None? || now < e.timer.value)
    ensures Expire(e, now) == e
  {
  }

  /** A REJ or a final RR is paid first. */
  lemma Pays(e: End, now: int)
    requires Firm(e) || Asking(e, now)
    requires e.urgent == [] && (e.owed.reject.Some? || e.owed.finalRr)
    ensures NextFrame(e, now) == (e.(owed := Paid(e.owed)), Some(OwedFrame(e)))
  {
    hide Paid, OwedFrame, NextIFrame, Retry, Recover;
  }

  lemma PaysWith(e: End)
    requires e.owed.reject.Some? || e.owed.finalRr
    ensures var f := OwedFrame(e);
      && f.control.S? && (f.control.kind == Rr || f.control.kind == Rej)
      && f == Frame(!e.originate, S(f.control.kind, e.vr, f.control.pf), [])
      && f.control.pf == if e.owed.reject.Some? then e.owed.reject.value else true
    ensures T.Owing(Paid(e.owed)) < T.Owing(e.owed) && Paid(e.owed).poll == e.owed.poll
    ensures Paid(e.owed).reject.None?
    ensures Paid(e.owed).finalRr == (e.owed.finalRr && e.owed.reject.Some? && !e.owed.reject.value)
  {
  }

  /** Then the poll. */
  lemma Polls(e: End, now: int)
    requires Firm(e) || Asking(e, now)
    requires e.urgent == [] && e.owed.reject.None? && !e.owed.finalRr && e.owed.poll
    ensures NextFrame(e, now)
      == (e.(owed := NothingOwed, timer := Some(now + e.t401)), Some(Frame(e.originate, S(Rr, e.vr, true), [])))
  {
    hide NextIFrame, Retry, Recover;
  }

  /** And then an I frame, which is the first unacknowledged one or a new one. */
  lemma SendsFirst(e: End, now: int)
    requires Firm(e) && !e.recovery && e.urgent == [] && !Owes(e.owed) && (e.sent != [] || e.queue != [])
    ensures var (e', frame) := NextFrame(e, now);
      && frame.Some? && frame.value == Frame(e.originate, I(e.va, e.vr, false), frame.value.info)
      && e' == e.(sent := e'.sent, queue := e'.queue, resent := e'.resent, vs := e'.vs, owed := e.owed.(ack := false),
        timer := Some(now + e.t401))
      && |e'.sent| >= 1 && |e'.queue| + |e'.sent| <= |e.queue| + |e.sent|
  {
    hide Retry, Recover;
    NoneAfter(e.va);
  }

  /** T401 then runs out, and a poll is owed. */
  lemma RunsOut(e: End, now: int)
    requires Able(e) && !e.recovery && e.timer.Some? && e.timer.value <= now
    ensures Expire(e, now) == e.(timer := None, recovery := true, retries := 0, owed := e.owed.(poll := true))
    ensures Firm(Expire(e, now)) && Expire(e, now).recovery
  {
    hide Release;
  }

  // Runs in which time goes on.

  /** Frames are sent and arrive, none is lost, and no time is before another. */
  predicate Onwards(actions: seq<Action>, from: int, to: int)
    decreases |actions|
  {
    if actions == [] then from <= to
    else
      var a := actions[0];
      (a.Transmit? || a.Arrive?) && from <= a.now && Onwards(actions[1..], a.now, to)
  }

  ghost predicate Leads(s: Pair, from: int, s': Pair, to: int) {
    exists actions: seq<Action> :: Onwards(actions, from, to) && Run(s, actions) == s'
  }

  lemma {:induction false} OnwardsAppend(a: seq<Action>, b: seq<Action>, from: int, mid: int, to: int)
    requires Onwards(a, from, mid) && Onwards(b, mid, to)
    ensures Onwards(a + b, from, to)
    decreases |a|
  {
    if a == [] {
      assert a + b == b;
      OnwardsEarlier(b, from, mid, to);
    } else {
      OnwardsAppend(a[1..], b, a[0].now, mid, to);
      assert (a + b)[1..] == a[1..] + b;
    }
  }

  lemma OnwardsEarlier(a: seq<Action>, from: int, mid: int, to: int)
    requires from <= mid && Onwards(a, mid, to)
    ensures Onwards(a, from, to)
  {
  }

  lemma LeadsOn(s: Pair, a: int, s1: Pair, b: int, s2: Pair, c: int)
    requires Leads(s, a, s1, b) && Leads(s1, b, s2, c)
    ensures Leads(s, a, s2, c)
  {
    hide Onwards, Run;
    var p: seq<Action> :| Onwards(p, a, b) && Run(s, p) == s1;
    var q: seq<Action> :| Onwards(q, b, c) && Run(s1, q) == s2;
    OnwardsAppend(p, q, a, b, c);
    RunsOn(s, p, q);
  }

  lemma Waits(s: Pair, from: int, to: int)
    requires from <= to
    ensures Leads(s, from, s, to)
  {
    assert Onwards([], from, to) && Run(s, []) == s;
  }

  lemma {:induction false} GivenStays(s: Pair, actions: seq<Action>, from: int, to: int)
    requires Onwards(actions, from, to)
    ensures var s' := Run(s, actions); s'.caller.given == s.caller.given && s'.called.given == s.called.given
    decreases |actions|
  {
    hide NextFrame, Receive, Expire, Bytes;
    if actions != [] {
      GivenStays(Act(s, actions[0]), actions[1..], actions[0].now, to);
    }
  }

  lemma LeadsGiven(s: Pair, from: int, s': Pair, to: int)
    requires Leads(s, from, s', to)
    ensures s'.caller.given == s.caller.given && s'.called.given == s.called.given
  {
    hide Onwards, Run;
    var actions: seq<Action> :| Onwards(actions, from, to) && Run(s, actions) == s';
    GivenStays(s, actions, from, to);
  }

  lemma LeadsOk(s: Pair, from: int, s': Pair, to: int, offer: Option<Directions>, offer': Option<Directions>)
    requires ValidOffer(offer) && ValidOffer(offer') && Leads(s, from, s', to) && SystemOk(s, offer, offer')
    ensures SystemOk(s', offer, offer')
  {
    hide Onwards, Run, SystemOk;
    var actions: seq<Action> :| Onwards(actions, from, to) && Run(s, actions) == s';
    RunOk(s, actions, offer, offer');
  }

  // A frame goes across.

  /** An end as anything that happens to it at `now` finds it. */
  function Seen(s: Pair, side: Side, now: int): End {
    Expire(At(s, side).end, now)
  }

  lemma SeenAgain(e0: End, bytes: Octets, now: int)
    requires var e := Expire(e0, now); e.state.Connected? && (e.timer.None? || now < e.timer.value)
    ensures var e := Expire(e0, now);
      && Expire(e, now) == e && NextFrame(e0, now) == NextFrame(e, now)
      && Receive(e0, bytes, now) == Receive(e, bytes, now)
  {
    hide Expire, NextNumbered, Parse, ReceiveNumbered, ReceiveUnnumbered;
    ExpiresOnce(Expire(e0, now), now);
  }

  /** Nothing is on its way. */
  ghost predicate Clear(s: Pair, offer: Option<Directions>, offer': Option<Directions>) {
    SystemOk(s, offer, offer') && s.caller.out == [] && s.called.out == []
  }

  predicate Running(e: End, now: int) {
    e.state.Connected? && (e.timer.None? || now < e.timer.value)
  }

  lemma LeadsTurned(s: Pair, side: Side, now: int)
    ensures Leads(s, now, Turned(s, side, now), now)
  {
    hide Turned;
    RunsTurn(s, side, now, []);
    NothingRuns(Turned(s, side, now));
    var actions := [Transmit(side, now), Arrive(Other(side), now)] + [];
    assert actions[1..] == [Arrive(Other(side), now)] && actions[1..][1..] == [];
    assert Onwards(actions[1..][1..], now, now);
    assert Onwards(actions[1..], now, now);
    assert Onwards(actions, now, now);
  }

  /** The frame that one end has to send is sent, and is heard by the other. */
  lemma Crosses(s: Pair, side: Side, now: int, offer: Option<Directions>, offer': Option<Directions>)
    requires ValidOffer(offer) && ValidOffer(offer') && Clear(s, offer, offer')
    requires Running(Seen(s, side, now), now) && Running(Seen(s, Other(side), now), now)
    requires NextFrame(Seen(s, side, now), now).1.Some?
    ensures var s' := Turned(s, side, now);
      var (x, frame) := NextFrame(Seen(s, side, now), now);
      && Clear(s', offer, offer') && Leads(s, now, s', now)
      && At(s', side).end == x && At(s', Other(side)).end == Receive(Seen(s, Other(side), now), Bytes(frame.value), now)
  {
    hide Expire, NextFrame, Receive, Bytes, SystemOk, Turned, Leads;
    var f := NextFrame(Seen(s, side, now), now).1.value;
    SeenAgain(At(s, side).end, Bytes(f), now);
    SeenAgain(At(s, Other(side)).end, Bytes(f), now);
    Passes(s, side, now, f);
    LeadsTurned(s, side, now);
    LeadsOk(s, now, Turned(s, side, now), now, offer, offer');
  }

  lemma SeenIs(e: End, now: int)
    requires Expire(e, now).state.Connected?
    ensures var e' := Expire(e, now);
      && e.state.Connected? && e'.va == e.va && e'.vs == e.vs && e'.vr == e.vr && e'.sent == e.sent
      && e'.queue == e.queue && e'.originate == e.originate && e'.urgent == e.urgent && SameKind(e, e')
      && (!e'.recovery ==> e' == e)
  {
    hide Retry;
    StateThroughExpiry(e, now);
  }

  lemma JoinedLinks(x: Half, y: Half)
    requires Joined(x, y) && x.end.state.Connected?
    ensures Linked(x.end, y.end.vr)
  {
    hide Flatten, DataFlies, AcksFly, Delivered, Lapm.After;
    AfterExact(y.heard, Acked(x));
  }

  /** Each end awaits a frame that the other has or is to make. */
  lemma AreLinked(s: Pair, side: Side, now: int, offer: Option<Directions>, offer': Option<Directions>)
    requires Clear(s, offer, offer')
    requires Seen(s, side, now).state.Connected? && Seen(s, Other(side), now).state.Connected?
    ensures var x, y := Seen(s, side, now), Seen(s, Other(side), now);
      Linked(x, y.vr) && Linked(y, x.vr) && x.originate != y.originate
  {
    hide Joined, Expire, CallerFrames, CalledFrames, Agreement, Mirrored, Reply, Linked, Lapm.After;
    SeenIs(s.caller.end, now);
    SeenIs(s.called.end, now);
    JoinedBothWays(s.caller, s.called);
    JoinedLinks(s.caller, s.called);
    JoinedLinks(s.called, s.caller);
    SameLinks(s.caller.end, Expire(s.caller.end, now), s.called.end.vr);
    SameLinks(s.called.end, Expire(s.called.end, now), s.caller.end.vr);
  }

  lemma SameLinks(e: End, e': End, nr: Seven)
    requires Linked(e, nr) && e'.va == e.va && e'.sent == e.sent
    ensures Linked(e', nr)
  {
  }

  // Polls and their answers.

  /** All that is to be seen of a pair at rest: nothing is on its way, and T401 is stopped at both ends. */
  ghost predicate Rested(s: Pair, now: int, offer: Option<Directions>, offer': Option<Directions>) {
    && Clear(s, offer, offer')
    && Firm(Seen(s, Caller, now)) && Firm(Seen(s, Called, now))
    && Seen(s, Caller, now).urgent == [] && Seen(s, Called, now).urgent == []
  }

  lemma FirmSeen(e: End, now: int)
    requires e.timer.None? && e.state.Connected?
    ensures Expire(e, now) == e
  {
  }

  lemma Both(s: Pair, side: Side, now: int, offer: Option<Directions>, offer': Option<Directions>)
    requires Clear(s, offer, offer')
    requires Firm(Seen(s, side, now)) && Firm(Seen(s, Other(side), now))
    requires Seen(s, side, now).urgent == [] && Seen(s, Other(side), now).urgent == []
    ensures Rested(s, now, offer, offer')
  {
    hide Clear, Firm, Expire;
  }

  /** The poll is on its way to being answered: `x` has asked, and `y` owes the answer. */
  ghost predicate Answering(
      s: Pair, side: Side, now: int, offer: Option<Directions>, offer': Option<Directions>)
  {
    var x, y := At(s, side).end, At(s, Other(side)).end;
    && Clear(s, offer, offer')
    && Asked(x, now) && Firm(y) && y.owed.finalRr && x.urgent == [] && y.urgent == []
  }

  /** What the answer to a poll makes of the two ends. */
  predicate Answered(x: End, y: End, x': End, y': End)
    requires Linked(x, y.vr)
  {
    && Firm(x') && !x'.recovery && x'.va == y'.vr && !Owes(x'.owed)
    && x'.queue == x.queue && x'.sent == Unacknowledged(x, y.vr) && SameKind(x, x') && x'.urgent == x.urgent
    && Firm(y') && y'.vr == y.vr && Holds(y, y')
  }

  lemma NoneLeft(e: End)
    ensures Linked(e, e.va) && Unacknowledged(e, e.va) == e.sent
  {
    hide Lapm.After;
    NoneAfter(e.va);
  }

  lemma Answers(s: Pair, side: Side, now: int, offer: Option<Directions>, offer': Option<Directions>)
    returns (s': Pair)
    requires ValidOffer(offer) && ValidOffer(offer') && Answering(s, side, now, offer, offer')
    ensures Clear(s', offer, offer') && Leads(s, now, s', now)
    ensures Linked(At(s, side).end, At(s, Other(side)).end.vr)
    ensures Answered(At(s, side).end, At(s, Other(side)).end, At(s', side).end, At(s', Other(side)).end)
    decreases T.Owing(At(s, Other(side)).end.owed)
  {
    hide Clear, Asked, Firm, Expire, Linked, Unacknowledged, NextFrame, Receive, Bytes, Turned, Leads, Paid,
      OwedFrame, T.Owing;
    var x, y := At(s, side).end, At(s, Other(side)).end;
    AskedIs(x, now);
    FirmIs(y);
    FirmSeen(y, now);
    ExpiresOnce(x, now);
    AreLinked(s, side, now, offer, offer');
    Pays(y, now);
    PaysWith(y);
    Crosses(s, Other(side), now, offer, offer');
    var s1 := Turned(s, Other(side), now);
    var f := OwedFrame(y);
    AskedHearsS(x, f.control.kind, y.vr, f.control.pf, now);
    var y1 := y.(owed := Paid(y.owed));
    PaidIsFirm(y);
    if f.control.pf {
      s' := s1;
    } else {
      s' := Answers(s1, side, now, offer, offer');
      LeadsOn(s, now, s1, now, s', now);
      NoneLeft(At(s1, side).end);
      HoldsOn(y, y1, At(s', Other(side)).end);
    }
  }

  lemma PaidIsFirm(y: End)
    requires Firm(y) && (y.owed.reject.Some? || y.owed.finalRr)
    ensures var y' := y.(owed := Paid(y.owed)); Firm(y') && Holds(y, y')
  {
  }

  lemma PaidAsks(x: End, now: int)
    requires Firm(x) || Asking(x, now)
    requires x.owed.reject.Some? || x.owed.finalRr
    ensures var x' := x.(owed := Paid(x.owed));
      && (Firm(x) ==> Firm(x')) && (Asking(x, now) ==> Asking(x', now)) && SameKind(x, x') && Running(x, now)
  {
  }

  lemma PolledIsAsked(x: End, now: int)
    requires Asking(x, now)
    ensures Asked(Polled(x, now), now) && Polled(x, now).urgent == x.urgent
    ensures Polled(x, now) == x.(owed := Polled(x, now).owed, timer := Polled(x, now).timer)
  {
  }

  /** Paying and polling before it change nothing of what the answer makes. */
  lemma AnsweredBefore(x: End, y: End, x1: End, y1: End, x': End, y': End)
    requires x1 == x.(owed := x1.owed, timer := x1.timer) && y1.vr == y.vr && Holds(y, y1)
    requires Linked(x, y.vr) && Linked(x1, y1.vr) && Answered(x1, y1, x', y')
    ensures Answered(x, y, x', y')
  {
    hide Firm, Lapm.After;
    HoldsOn(y, y1, y');
  }

  /** An end in timer recovery pays what it owes, polls and is answered, all in no time. */
  lemma Recovers(s: Pair, side: Side, now: int, offer: Option<Directions>, offer': Option<Directions>)
    returns (s': Pair)
    requires ValidOffer(offer) && ValidOffer(offer') && Clear(s, offer, offer')
    requires Asking(Seen(s, side, now), now) && Firm(Seen(s, Other(side), now))
    requires Seen(s, side, now).urgent == [] && Seen(s, Other(side), now).urgent == []
    ensures Clear(s', offer, offer') && Leads(s, now, s', now)
    ensures Linked(Seen(s, side, now), Seen(s, Other(side), now).vr)
    ensures Answered(Seen(s, side, now), Seen(s, Other(side), now), At(s', side).end, At(s', Other(side)).end)
    decreases T.Owing(Seen(s, side, now).owed)
  {
    hide *;
    var x, y := Seen(s, side, now), Seen(s, Other(side), now);
    FirmIs(y);
    AskingRuns(x, now);
    AreLinked(s, side, now, offer, offer');
    var s1: Pair;
    if x.owed.reject.Some? || x.owed.finalRr {
      s1 := PaysAcross(s, side, now, offer, offer');
      HoldsUrgent(y, Seen(s1, Other(side), now));
      s' := Recovers(s1, side, now, offer, offer');
      AnsweredBefore(x, y, Seen(s1, side, now), Seen(s1, Other(side), now), At(s', side).end, At(s', Other(side)).end);
    } else {
      s1 := PollsAcross(s, side, now, offer, offer');
      HoldsUrgent(y, At(s1, Other(side)).end);
      PolledIsAsked(x, now);
      IsAnswering(s1, side, now, offer, offer');
      s' := Answers(s1, side, now, offer, offer');
      AnsweredBefore(x, y, At(s1, side).end, At(s1, Other(side)).end, At(s', side).end, At(s', Other(side)).end);
    }
    LeadsOn(s, now, s1, now, s', now);
  }

  lemma IsAnswering(s: Pair, side: Side, now: int, offer: Option<Directions>, offer': Option<Directions>)
    requires var x, y := At(s, side).end, At(s, Other(side)).end;
      Asked(x, now) && Firm(y) && y.owed.finalRr && x.urgent == [] && y.urgent == []
    requires Clear(s, offer, offer')
    ensures Answering(s, side, now, offer, offer')
  {
    hide Asked, Firm, Clear;
  }

  function Polled(x: End, now: int): End {
    x.(owed := NothingOwed, timer := Some(now + x.t401))
  }

  /** A poll goes across, and is to be answered. */
  lemma PollsAcross(s: Pair, side: Side, now: int, offer: Option<Directions>, offer': Option<Directions>)
    returns (s': Pair)
    requires ValidOffer(offer) && ValidOffer(offer') && Clear(s, offer, offer')
    requires var x := Seen(s, side, now);
      && (Firm(x) || Asking(x, now)) && x.urgent == []
      && x.owed.reject.None? && !x.owed.finalRr && x.owed.poll
    requires Firm(Seen(s, Other(side), now))
    ensures Clear(s', offer, offer') && Leads(s, now, s', now)
    ensures At(s', side).end == Polled(Seen(s, side, now), now)
    ensures var y, y' := Seen(s, Other(side), now), At(s', Other(side)).end;
      Firm(y') && y'.vr == y.vr && Holds(y, y') && y'.owed.finalRr
  {
    hide Clear, Asking, Firm, Expire, Linked, NextFrame, Receive, Bytes, Turned, Leads, Holds;
    var x, y := Seen(s, side, now), Seen(s, Other(side), now);
    FirmIs(y);
    FirmOrAskingRuns(x, now);
    AreLinked(s, side, now, offer, offer');
    Polls(x, now);
    Crosses(s, side, now, offer, offer');
    s' := Turned(s, side, now);
    FirmHearsS(y, true, Rr, x.vr, true, now);
  }

  lemma FirmOrAskingRuns(x: End, now: int)
    requires Firm(x) || Asking(x, now)
    ensures Running(x, now)
  {
  }

  lemma AskingRuns(x: End, now: int)
    requires Asking(x, now)
    ensures Running(x, now) && x.owed.poll
  {
  }

  lemma RunningStays(e: End, now: int)
    requires Running(e, now)
    ensures Expire(e, now) == e
  {
  }

  /** A REJ or final RR goes across, and nothing else comes of it. */
  lemma PaysAcross(s: Pair, side: Side, now: int, offer: Option<Directions>, offer': Option<Directions>)
    returns (s': Pair)
    requires ValidOffer(offer) && ValidOffer(offer') && Clear(s, offer, offer')
    requires Firm(Seen(s, side, now)) || Asking(Seen(s, side, now), now)
    requires Firm(Seen(s, Other(side), now))
    requires Seen(s, side, now).urgent == []
    requires Seen(s, side, now).owed.reject.Some? || Seen(s, side, now).owed.finalRr
    ensures Clear(s', offer, offer') && Leads(s, now, s', now)
    ensures var x, y, x', y' := Seen(s, side, now), Seen(s, Other(side), now), Seen(s', side, now),
        Seen(s', Other(side), now);
      && x' == x.(owed := Paid(x.owed)) && T.Owing(x'.owed) < T.Owing(x.owed) && x'.owed.poll == x.owed.poll
      && (Firm(x) ==> Firm(x')) && (Asking(x, now) ==> Asking(x', now))
      && Firm(y') && y'.vr == y.vr && Holds(y, y')
  {
    hide Clear, Asking, Firm, Expire, Linked, Unacknowledged, NextFrame, Receive, Bytes, Turned, Leads, Paid,
      OwedFrame, T.Owing, Holds;
    var x, y := Seen(s, side, now), Seen(s, Other(side), now);
    FirmIs(y);
    PaidAsks(x, now);
    AreLinked(s, side, now, offer, offer');
    Pays(x, now);
    PaysWith(x);
    Crosses(s, side, now, offer, offer');
    s' := Turned(s, side, now);
    FirmHearsS(y, false, OwedFrame(x).control.kind, x.vr, OwedFrame(x).control.pf, now);
    RunningStays(At(s', side).end, now);
    FirmIs(At(s', Other(side)).end);
    FirmSeen(At(s', Other(side)).end, now);
  }

  // One frame at a time.

  function Left(e: End): nat {
    |e.queue| + |e.sent|
  }

  predicate Done(e: End) {
    !e.recovery && e.queue == [] && e.sent == []
  }

  /** The next I frame of `x` is the one that `y` awaits. */
  predicate InStep(x: End, y: End) {
    !x.recovery && !x.owed.poll && x.va == y.vr
  }

  /** What `x` has left only shrinks, and does if the ends were in step; they are now. */
  predicate Advanced(x: End, y: End, x': End, y': End) {
    && Firm(x') && Firm(y') && InStep(x', y') && Holds(y, y')
    && x'.urgent == x.urgent && y'.urgent == y.urgent
    && Left(x') <= Left(x) && (InStep(x, y) ==> Left(x') < Left(x))
  }

  lemma AnsweredAdvances(x: End, y: End, x1: End, y1: End, x': End, y': End)
    requires Linked(x1, y1.vr) && Answered(x1, y1, x', y') && Holds(y, y1)
    requires Left(x1) <= Left(x) && x1.urgent == x.urgent
    requires InStep(x, y) ==> x1.sent != [] && y1.vr == (x1.va + 1) % MODULUS
    ensures Advanced(x, y, x', y')
  {
    hide Lapm.After, Firm;
    NoneAfter(x1.va);
    HoldsOn(y, y1, y');
  }

  /** An I frame goes across. */
  lemma SendsAcross(s: Pair, side: Side, now: int, offer: Option<Directions>, offer': Option<Directions>)
    returns (s': Pair)
    requires ValidOffer(offer) && ValidOffer(offer') && Clear(s, offer, offer')
    requires var x := Seen(s, side, now);
      Firm(x) && !x.recovery && x.urgent == [] && !Owes(x.owed) && (x.sent != [] || x.queue != [])
    requires Firm(Seen(s, Other(side), now))
    ensures Clear(s', offer, offer') && Leads(s, now, s', now)
    ensures var x, x' := Seen(s, side, now), At(s', side).end;
      && x' == x.(sent := x'.sent, queue := x'.queue, resent := x'.resent, vs := x'.vs, owed := x.owed.(ack := false),
        timer := Some(now + x.t401))
      && x'.sent != [] && Left(x') <= Left(x)
    ensures var x, y, y' := Seen(s, side, now), Seen(s, Other(side), now), At(s', Other(side)).end;
      Firm(y') && Holds(y, y') && y'.vr == if x.va == y.vr then (x.va + 1) % MODULUS else y.vr
  {
    hide Clear, Firm, Expire, Linked, NextFrame, Receive, Bytes, Turned, Leads, Holds;
    var x, y := Seen(s, side, now), Seen(s, Other(side), now);
    FirmIs(x);
    FirmIs(y);
    AreLinked(s, side, now, offer, offer');
    SendsFirst(x, now);
    Crosses(s, side, now, offer, offer');
    s' := Turned(s, side, now);
    FirmHearsI(y, x.va, x.vr, NextFrame(x, now).1.value.info, now);
  }

  lemma FirmIsAble(e: End)
    requires Firm(e)
    ensures Able(e)
  {
  }

  /** Outside timer recovery `x` has sent something and started T401: if the ends were in step, the frame awaited. */
  ghost predicate Sent(x: End, y: End, x': End, y': End, now: int) {
    && Able(x') && !x'.recovery && x'.timer == Some(now + x'.t401) && x'.urgent == x.urgent == []
    && Firm(y') && Holds(y, y') && y'.urgent == [] && Left(x') <= Left(x)
    && (InStep(x, y) ==> x'.sent != [] && y'.vr == (x'.va + 1) % MODULUS)
  }

  /** T401 runs out at `x`, and the answer to its poll brings the ends in step. */
  lemma WaitsAndRecovers(
      s: Pair, side: Side, now: int, x: End, y: End, offer: Option<Directions>, offer': Option<Directions>)
    returns (s': Pair)
    requires ValidOffer(offer) && ValidOffer(offer') && Clear(s, offer, offer')
    requires Sent(x, y, At(s, side).end, At(s, Other(side)).end, now)
    ensures var t := now + At(s, side).end.t401;
      Clear(s', offer, offer') && Leads(s, now, s', t) && Advanced(x, y, At(s', side).end, At(s', Other(side)).end)
  {
    hide Clear, Asking, Firm, Expire, Linked, Unacknowledged, Leads, Holds, Answered, Advanced, InStep;
    var x1, y1 := At(s, side).end, At(s, Other(side)).end;
    var t := now + x1.t401;
    RunsOut(x1, t);
    FirmRecoveryAsks(Seen(s, side, t), t);
    FirmIs(y1);
    FirmSeen(y1, t);
    s' := Recovers(s, side, t, offer, offer');
    Waits(s, now, t);
    LeadsOn(s, now, s, t, s', t);
    AnsweredAdvances(x, y, Seen(s, side, t), y1, At(s', side).end, At(s', Other(side)).end);
  }

  lemma FirmRecoveryAsks(e: End, now: int)
    requires Firm(e) && e.recovery
    ensures Asking(e, now)
  {
  }

  lemma AdvancedBefore(x: End, y: End, x1: End, y1: End, x': End, y': End)
    requires x1 == x.(owed := x1.owed) && x1.owed.poll == x.owed.poll && y1.vr == y.vr && Holds(y, y1)
    requires Advanced(x1, y1, x', y')
    ensures Advanced(x, y, x', y')
  {
    hide Firm;
    HoldsOn(y, y1, y');
  }

  lemma HoldsSelf(e: End)
    ensures Holds(e, e)
  {
  }

  lemma AdvancedEnds(x: End, y: End, x': End, y': End, now: int)
    requires Advanced(x, y, x', y')
    ensures Firm(x') && Firm(y') && Expire(x', now) == x' && Expire(y', now) == y'
    ensures x'.urgent == x.urgent && y'.urgent == y.urgent
  {
    FirmSeen(x', now);
    FirmSeen(y', now);
  }

  /** An end with something left gets into step with the other, or gets a frame across, by way of T401 and a poll. */
  lemma Cycle(s: Pair, side: Side, now: int, offer: Option<Directions>, offer': Option<Directions>)
    returns (s': Pair, later: int)
    requires ValidOffer(offer) && ValidOffer(offer') && Rested(s, now, offer, offer') && !Done(Seen(s, side, now))
    ensures Rested(s', later, offer, offer') && Leads(s, now, s', later)
    ensures Advanced(Seen(s, side, now), Seen(s, Other(side), now), Seen(s', side, later), Seen(s', Other(side), later))
    decreases T.Owing(Seen(s, side, now).owed)
  {
    hide Clear, Asking, Firm, Expire, Linked, Leads, Answered, Advanced, Holds, Paid, T.Owing, Polled, InStep;
    var x, y := Seen(s, side, now), Seen(s, Other(side), now);
    if x.recovery {
      FirmRecoveryAsks(x, now);
      s' := Recovers(s, side, now, offer, offer');
      later := now;
      RecoveringAdvances(x, y, At(s', side).end, At(s', Other(side)).end);
      AdvancedEnds(x, y, At(s', side).end, At(s', Other(side)).end, later);
      Both(s', side, later, offer, offer');
    } else if x.owed.reject.Some? || x.owed.finalRr {
      var s1 := PaysAcross(s, side, now, offer, offer');
      HoldsUrgent(y, Seen(s1, Other(side), now));
      Both(s1, side, now, offer, offer');
      s', later := Cycle(s1, side, now, offer, offer');
      LeadsOn(s, now, s1, now, s', later);
      AdvancedBefore(x, y, Seen(s1, side, now), Seen(s1, Other(side), now), Seen(s', side, later),
        Seen(s', Other(side), later));
    } else {
      var s1 := SendsOrPolls(s, side, now, offer, offer');
      s' := WaitsAndRecovers(s1, side, now, x, y, offer, offer');
      later := now + At(s1, side).end.t401;
      LeadsOn(s, now, s1, now, s', later);
      AdvancedEnds(x, y, At(s', side).end, At(s', Other(side)).end, later);
      Both(s', side, later, offer, offer');
    }
  }

  lemma RecoveringAdvances(x: End, y: End, x': End, y': End)
    requires Linked(x, y.vr) && Answered(x, y, x', y') && x.recovery
    ensures Advanced(x, y, x', y')
  {
    hide Firm, Lapm.After;
  }

  lemma HoldsUrgent(e: End, e': End)
    requires Holds(e, e')
    ensures e'.urgent == e.urgent
  {
  }

  /** A poll that is owed goes across, or else an I frame. */
  lemma SendsOrPolls(s: Pair, side: Side, now: int, offer: Option<Directions>, offer': Option<Directions>)
    returns (s': Pair)
    requires ValidOffer(offer) && ValidOffer(offer') && Rested(s, now, offer, offer') && !Done(Seen(s, side, now))
    requires var x := Seen(s, side, now); !x.recovery && x.owed.reject.None? && !x.owed.finalRr
    ensures Clear(s', offer, offer') && Leads(s, now, s', now)
    ensures Sent(Seen(s, side, now), Seen(s, Other(side), now), At(s', side).end, At(s', Other(side)).end, now)
  {
    hide Clear, Firm, Expire, Leads, Holds;
    var x, y := Seen(s, side, now), Seen(s, Other(side), now);
    FirmIsAble(x);
    if x.owed.poll {
      s' := PollsAcross(s, side, now, offer, offer');
    } else {
      s' := SendsAcross(s, side, now, offer, offer');
    }
    HoldsUrgent(y, At(s', Other(side)).end);
  }

  lemma AdvancedDone(x: End, y: End, x': End, y': End)
    requires Advanced(x, y, x', y')
    ensures Done(y) ==> Done(y')
    ensures Left(x') <= Left(x) && InStep(x', y') && (InStep(x, y) ==> Left(x') < Left(x))
  {
  }

  /** However much an end has left, it gets across. */
  lemma Drain(s: Pair, side: Side, now: int, offer: Option<Directions>, offer': Option<Directions>)
    returns (s': Pair, later: int)
    requires ValidOffer(offer) && ValidOffer(offer') && Rested(s, now, offer, offer')
    ensures Rested(s', later, offer, offer') && Leads(s, now, s', later)
    ensures Done(Seen(s', side, later))
    ensures Done(Seen(s, Other(side), now)) ==> Done(Seen(s', Other(side), later))
    decreases Left(Seen(s, side, now)), if InStep(Seen(s, side, now), Seen(s, Other(side), now)) then 0 else 1
  {
    hide Rested, Expire, Leads, Advanced, Left, InStep, Done;
    if Done(Seen(s, side, now)) {
      s', later := s, now;
      Waits(s, now, now);
    } else {
      var s1, t := Cycle(s, side, now, offer, offer');
      AdvancedDone(Seen(s, side, now), Seen(s, Other(side), now), Seen(s1, side, t), Seen(s1, Other(side), t));
      s', later := Drain(s1, side, t, offer, offer');
      LeadsOn(s, now, s1, t, s', later);
    }
  }

  lemma DoneSeen(e: End, now: int)
    requires Firm(Expire(e, now)) && Done(Expire(e, now))
    ensures e.state.Connected? && e.queue == [] && e.sent == []
  {
    hide Expire;
    SeenIs(e, now);
  }

  lemma DoneReaches(x: Half, y: Half)
    requires Joined(x, y) && x.end.state.Connected? && x.end.queue == [] && x.end.sent == []
    ensures Delivered(y) == x.given
  {
    hide DataFlies, AcksFly, Delivered, Flatten;
    assert x.log[..|x.log|] == x.log;
    assert Flatten(x.log) + [] == Flatten(x.log);
  }

  /** Nothing left means that everything was delivered. */
  lemma DoneDelivers(s: Pair, now: int, offer: Option<Directions>, offer': Option<Directions>)
    requires Rested(s, now, offer, offer') && Done(Seen(s, Caller, now)) && Done(Seen(s, Called, now))
    ensures AllDelivered(s)
  {
    hide Firm, Done, Expire, Joined, Talking, Delivered;
    DoneSeen(s.caller.end, now);
    DoneSeen(s.called.end, now);
    JoinedBothWays(s.caller, s.called);
    DoneReaches(s.caller, s.called);
    DoneReaches(s.called, s.caller);
  }
}
