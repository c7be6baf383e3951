/** On a line that loses nothing: two ends get connected, and all that they were given is delivered and acknowledged. */
module LapmProgress {
  import opened Prelude
  import opened LapmFrame
  import opened Lapm
  import opened LapmPair
  import opened LapmRun
  import opened LapmSettled
  import opened Negotiation
  import XidField

  /** A connected end with no condition to clear and nothing but data and acknowledgements to send. */
  predicate Steady(e: End) {
    && e.state.Connected? && !e.recovery && !e.peerBusy && !e.reject
    && e.urgent == [] && !Owes(e.owed)
    && e.k >= 1 && e.n401 >= 1 && e.t401 >= 1
  }

  /** It is `x`'s turn: all it sent is acknowledged, and it has heard all that `y` sent, at most one frame more. */
  predicate Turn(x: End, y: End, now: int) {
    && Steady(x) && Steady(y) && x.originate != y.originate
    && x.sent == [] && x.vs == x.va == y.vr && x.timer.None?
    && !y.owed.ack && y.vs == x.vr && Lapm.After(y.vs, y.va) == |y.sent| <= 1
    && (if y.sent == [] then y.timer.None? else x.owed.ack && y.timer.Some? && now < y.timer.value)
  }

  function Piece(e: End): nat {
    Min(|e.queue|, e.n401)
  }

  function WithData(e: End, now: int): End
    requires e.n401 >= 0
  {
    var n := Piece(e);
    e.(sent := [e.queue[..n]], queue := e.queue[n..], vs := (e.vs + 1) % MODULUS, owed := e.owed.(ack := false),
      timer := Some(now + e.t401))
  }

  lemma NoneAfter(a: Seven)
    ensures Lapm.After(a, a) == 0 && Lapm.After((a + 1) % MODULUS, a) == 1
  {
  }

  lemma SendsData(x: End, y: End, now: int)
    requires Turn(x, y, now) && x.queue != []
    ensures NextFrame(x, now) == (WithData(x, now), Some(Frame(Cr(x, true), I(x.vs, x.vr, false), x.queue[..Piece(x)])))
  {
    hide Lapm.After, NextFrame;
    NoneAfter(x.vs);
    var piece := x.queue[..Piece(x)];
    assert x.sent + [piece] == [piece];
    assert Loaded(x) == x.(sent := [piece], queue := x.queue[Piece(x)..]);
    assert Launched(Loaded(x), now) == (WithData(x, now), Frame(Cr(x, true), I(x.vs, x.vr, false), piece));
    FirstOut(x, now);
  }

  lemma FirstOut(x: End, now: int)
    requires Steady(x) && x.timer.None?
    ensures NextFrame(x, now)
      == var (e, frame) := NextIFrame(x, now);
      if frame.Some? then (e, frame)
      else if x.owed.ack then (x.(owed := x.owed.(ack := false)), Some(SupervisoryFrame(x, false, Rr, false)))
      else (x, None)
  {
    hide NextIFrame;
  }

  lemma SendsReady(x: End, y: End, now: int)
    requires Turn(x, y, now) && x.queue == []
    ensures NextFrame(x, now)
      == if x.owed.ack then (x.(owed := x.owed.(ack := false)), Some(SupervisoryFrame(x, false, Rr, false)))
         else (x, None)
  {
    hide Lapm.After;
    NoneAfter(x.vs);
  }

  /** An end once all that it sent is acknowledged. */
  function Cleared(y: End): End {
    y.(sent := [], va := y.vs, timer := None)
  }

  lemma ClearsAll(x: End, y: End, now: int)
    requires Turn(x, y, now)
    ensures Acknowledge(y, x.vr, now) == (Cleared(y), true)
    ensures Expire(y, now) == y
  {
    hide Lapm.After;
    NoneAfter(y.vs);
    assert y.sent[|y.sent|..] == [];
    if y.sent == [] {
      SameAfter(y.vs, y.va);
    }
  }

  lemma SameAfter(a: Seven, b: Seven)
    requires Lapm.After(a, b) == 0
    ensures a == b
  {
  }

  lemma HearsData(x: End, y: End, now: int)
    requires Turn(x, y, now) && x.queue != []
    ensures Receive(y, Bytes(Frame(Cr(x, true), I(x.vs, x.vr, false), x.queue[..Piece(x)])), now)
      == Informed(Cleared(y), x.vs, false, x.queue[..Piece(x)])
  {
    hide Expire, Acknowledge, Informed, Cleared, Parse, Bytes, Lapm.After;
    ClearsAll(x, y, now);
    ParsesBytes(Frame(Cr(x, true), I(x.vs, x.vr, false), x.queue[..Piece(x)]));
  }

  lemma HearsReady(x: End, y: End, now: int)
    requires Turn(x, y, now)
    ensures Receive(y, Bytes(SupervisoryFrame(x, false, Rr, false)), now) == Marked(Cleared(y), Rr, x.vr, now)
  {
    hide Expire, Acknowledge, Marked, Cleared, Parse, Bytes, Lapm.After;
    ClearsAll(x, y, now);
    ClearedSteady(y);
    ParsesBytes(SupervisoryFrame(x, false, Rr, false));
  }

  lemma ClearedSteady(y: End)
    requires Steady(y)
    ensures Steady(Cleared(y))
  {
  }

  /** What `x` has after its turn, and `y` after hearing it. */
  function AfterTurn(x: End, now: int): End {
    if x.queue != [] then WithData(x, now) else x.(owed := x.owed.(ack := false))
  }

  function AfterHearing(x: End, y: End): End {
    if x.queue != [] then
      Cleared(y).(received := y.received + x.queue[..Piece(x)], vr := (y.vr + 1) % MODULUS,
        owed := y.owed.(ack := true))
    else Cleared(y)
  }

  lemma HearsWhatIsSent(x: End, y: End, now: int)
    requires Turn(x, y, now)
    ensures var (x', frame) := NextFrame(x, now);
      && x' == AfterTurn(x, now)
      && AfterHearing(x, y) == if frame.Some? then Receive(y, Bytes(frame.value), now) else y
  {
    hide NextFrame, Receive, Bytes, Lapm.After;
    if x.queue != [] {
      SendsData(x, y, now);
      HearsData(x, y, now);
    } else {
      SendsReady(x, y, now);
      HearsReady(x, y, now);
      if y.sent == [] {
        SameAfter(y.vs, y.va);
      }
    }
  }

  /** After its turn it is the other's. */
  lemma TurnPasses(x: End, y: End, now: int)
    requires Turn(x, y, now)
    ensures Turn(AfterHearing(x, y), AfterTurn(x, now), now)
  {
    hide Lapm.After;
    NoneAfter(x.vs);
  }

  // Rounds of a pair.

  function At(s: Pair, side: Side): Half {
    if side.Caller? then s.caller else s.called
  }

  function Other(side: Side): Side {
    if side.Caller? then Called else Caller
  }

  /** Nothing is on its way, and what is not delivered waits in a queue. */
  ghost predicate Level(x: Half, y: Half, now: int) {
    && Turn(x.end, y.end, now) && x.out == [] && y.out == []
    && Delivered(y) + x.end.queue == x.given && Delivered(x) + y.end.queue == y.given
  }

  lemma Transmitted(x: Half, y: Half, now: int)
    requires Level(x, y, now)
    ensures var x' := TransmitFrom(x, now);
      && x'.end == AfterTurn(x.end, now) && x'.given == x.given && x'.taken == x.taken
      && (if NextFrame(x.end, now).1.None? then x'.out == []
          else |x'.out| == 1 && x'.out[0].frame == NextFrame(x.end, now).1.value)
  {
    hide Turn, NextFrame, AfterTurn, AfterHearing, Expire, Lapm.After;
    HearsWhatIsSent(x.end, y.end, now);
  }

  lemma MovesText(x: Half, y: Half)
    requires Delivered(y) + x.end.queue == x.given && x.end.n401 >= 0
    ensures var n := Piece(x.end);
      y.taken + (y.end.received + x.end.queue[..n]) + x.end.queue[n..] == x.given
  {
    var n := Piece(x.end);
    var head, rest := x.end.queue[..n], x.end.queue[n..];
    assert x.end.queue == head + rest;
    Associates(y.taken, y.end.received, head);
    Associates(Delivered(y), head, rest);
  }

  /** One turn: a frame out of `x`, if it has any, and into `y`. */
  lemma HalfRound(x: Half, y: Half, now: int)
    requires Level(x, y, now)
    ensures var x1 := TransmitFrom(x, now);
      var x', y' := x1.(out := []), if x1.out == [] then y else ArriveAt(y, x1.out[0], now);
      && Level(y', x', now) && x'.given == x.given && y'.given == y.given
      && x'.end == AfterTurn(x.end, now) && y'.end == AfterHearing(x.end, y.end)
  {
    hide Turn, NextFrame, Receive, TransmitFrom, Lapm.After, Piece;
    Transmitted(x, y, now);
    HearsWhatIsSent(x.end, y.end, now);
    TurnPasses(x.end, y.end, now);
    MovesText(x, y);
  }

  function Turned(s: Pair, side: Side, now: int): Pair {
    Act(Act(s, Transmit(side, now)), Arrive(Other(side), now))
  }

  lemma Round(s: Pair, side: Side, now: int)
    requires Level(At(s, side), At(s, Other(side)), now)
    ensures var s' := Turned(s, side, now);
      var x, y, x', y' := At(s, side), At(s, Other(side)), At(s', side), At(s', Other(side));
      && Level(y', x', now) && x'.given == x.given && y'.given == y.given
      && x'.end == AfterTurn(x.end, now) && y'.end == AfterHearing(x.end, y.end)
  {
    hide Level, TransmitFrom, ArriveAt, AfterTurn, AfterHearing, NextFrame;
    var x, y := At(s, side), At(s, Other(side));
    HalfRound(x, y, now);
    Transmitted(x, y, now);
    TurnedIs(s, side, now);
    var x1 := TransmitFrom(x, now);
    if x1.out == [] {
      assert x1.(out := []) == x1;
    } else {
      assert x1.out[1..] == [];
    }
  }

  lemma TurnedIs(s: Pair, side: Side, now: int)
    ensures var s', x1, y := Turned(s, side, now), TransmitFrom(At(s, side), now), At(s, Other(side));
      if x1.out == [] then At(s', side) == x1 && At(s', Other(side)) == y
      else At(s', side) == x1.(out := x1.out[1..]) && At(s', Other(side)) == ArriveAt(y, x1.out[0], now)
  {
    hide TransmitFrom, ArriveAt;
  }

  /** All that either end was given is delivered and acknowledged. */
  ghost predicate AllDelivered(s: Pair) {
    && BothConnected(s)
    && s.caller.end.queue == [] && s.called.end.queue == []
    && s.caller.end.sent == [] && s.called.end.sent == []
    && Delivered(s.called) == s.caller.given && Delivered(s.caller) == s.called.given
  }

  lemma {:induction false} Deliver(s: Pair, side: Side, now: int) returns (actions: seq<Action>)
    requires Level(At(s, side), At(s, Other(side)), now)
    ensures var s' := Run(s, actions);
      AllDelivered(s') && s'.caller.given == s.caller.given && s'.called.given == s.called.given
    ensures forall a :: a in actions ==> a.Transmit? || a.Arrive?
    decreases |s.caller.end.queue| + |s.called.end.queue|, |At(s, side).end.sent| + |At(s, Other(side)).end.sent|,
      if At(s, side).end.queue == [] then 1 else 0
  {
    hide Level, Turned, AfterTurn, AfterHearing, Run, AllDelivered;
    var x, y := At(s, side), At(s, Other(side));
    if x.end.queue == [] && y.end.queue == [] && y.end.sent == [] {
      actions := [];
      NothingRuns(s);
      LevelDelivers(s, side, now);
    } else {
      var s' := Turned(s, side, now);
      Round(s, side, now);
      TurnShrinks(x, y, now);
      var rest := Deliver(s', Other(side), now);
      actions := [Transmit(side, now), Arrive(Other(side), now)] + rest;
      RunsTurn(s, side, now, rest);
    }
  }

  lemma NothingRuns(s: Pair)
    ensures Run(s, []) == s
  {
  }

  lemma RunsTurn(s: Pair, side: Side, now: int, rest: seq<Action>)
    ensures Run(s, [Transmit(side, now), Arrive(Other(side), now)] + rest) == Run(Turned(s, side, now), rest)
  {
    hide Act;
    var actions := [Transmit(side, now), Arrive(Other(side), now)] + rest;
    assert actions[1..] == [Arrive(Other(side), now)] + rest && actions[1..][1..] == rest;
  }

  lemma LevelDelivers(s: Pair, side: Side, now: int)
    requires Level(At(s, side), At(s, Other(side)), now)
    requires At(s, side).end.queue == [] && At(s, Other(side)).end.queue == [] && At(s, Other(side)).end.sent == []
    ensures AllDelivered(s)
  {
    hide Lapm.After;
    assert Delivered(s.called) + [] == Delivered(s.called) && Delivered(s.caller) + [] == Delivered(s.caller);
  }

  /** A turn takes from the queue, or leaves both ends with nothing to acknowledge. */
  lemma TurnShrinks(x: Half, y: Half, now: int)
    requires Level(x, y, now)
    ensures var x', y' := AfterTurn(x.end, now), AfterHearing(x.end, y.end);
      && y'.queue == y.end.queue && y'.sent == []
      && (if x.end.queue != [] then |x'.queue| < |x.end.queue| else x'.queue == [] && x'.sent == [])
    ensures x.end.sent == []
  {
    hide Lapm.After;
  }

  // Establishment.

  /** An end that has numbered nothing yet and given nothing up, with `bytes` waiting. */
  predicate Blank(e: End, bytes: Octets) {
    && e.vs == e.va == e.vr == 0 && e.sent == [] && e.received == [] && e.queue == bytes && e.owed == NothingOwed
    && !e.recovery && !e.peerBusy && !e.reject && e.retries == 0
    && e.k >= 1 && e.n401 >= 1 && e.t401 >= 1
  }

  /** Neither T401 nor a deadline has run out. */
  predicate InTime(e: End, now: int) {
    (e.state.Waiting? ==> now < e.state.deadline) && (e.timer.Some? ==> now < e.timer.value)
  }

  lemma InTimeStays(e: End, now: int)
    requires InTime(e, now)
    ensures Expire(e, now) == e
  {
  }

  /** An end sends the one frame that is urgent. */
  lemma SendsUrgent(e: End, bytes: Octets, now: int, f: Frame, timed: bool)
    requires Blank(e, bytes) && InTime(e, now) && e.urgent == [(f, timed)]
    ensures var (e', frame) := NextFrame(e, now);
      && frame == Some(f) && Blank(e', bytes) && InTime(e', now) && e'.urgent == []
      && e'.state == e.state && SameTerms(e, e') && (!timed ==> e'.timer == e.timer)
  {
    hide Expire, NextNumbered;
    InTimeStays(e, now);
  }

  lemma XidCommandBlank(e: End, info: Octets, bytes: Octets)
    requires Blank(e, bytes) && !XidCommand(e, info).state.Released?
    ensures Blank(XidCommand(e, info), bytes) && XidCommand(e, info).timer == e.timer
  {
    hide XidField.Parse, XidField.Bytes, Agree, UnnumberedFrame;
    var parsed := XidField.Parse(info);
    if parsed.Some? {
      AgreeTweaks(e, parsed.value);
    }
  }

  lemma XidResponseBlank(e: End, info: Octets, bytes: Octets)
    requires Blank(e, bytes) && XidResponse(e, info).state.Establishing? && e.state.Negotiating?
    ensures Blank(XidResponse(e, info), bytes) && XidResponse(e, info).timer.None?
  {
    hide XidField.Parse, Conclude, N401Of, KOf, UnnumberedFrame;
    var parsed := XidField.Parse(info);
    if parsed.Some? {
      ClampsInRange(parsed.value.n401Rx, parsed.value.kRx);
    }
  }

  /** A well-formed unnumbered frame that arrives in time. */
  lemma HearsUnnumbered(e: End, now: int, f: Frame)
    requires InTime(e, now) && f.control.U? && WellFormed(f)
    ensures Receive(e, Bytes(f), now)
      == ReceiveUnnumbered(e, f.control.command, f.control.pf, f.cr == !e.originate, f.info)
  {
    hide Expire, ReceiveUnnumbered, Parse, Bytes;
    InTimeStays(e, now);
    ParsesBytes(f);
  }

  lemma HearsXidCommand(x: End, y: End, bytes: Octets, now: int, offer: Option<Directions>, offer': Option<Directions>)
    requires ValidOffer(offer) && ValidOffer(offer') && x.offer == offer && y.offer == offer'
    requires x.originate && !y.originate && y.state.Waiting? && y.compression.None?
    requires Blank(y, bytes) && InTime(y, now) && y.urgent == []
    ensures var y' := Receive(y, Bytes(XidCommandOf(x).0), now);
      && Blank(y', bytes) && InTime(y', now) && y'.state == y.state && y'.timer == y.timer && !y'.originate
      && y'.urgent == [(XidReplyFrame(y, offer, offer'), false)]
  {
    hide XidField.Bytes, OwnXid, Receive, XidCommand, Blank, Bytes, HasSettled;
    HearsUnnumbered(y, now, XidCommandOf(x).0);
    XidCommandSettles(y, offer, offer');
    XidCommandBlank(y, XidField.Bytes(OwnXid(offer)), bytes);
  }

  lemma HearsXidReply(x: End, y: End, bytes: Octets, now: int, offer: Option<Directions>, offer': Option<Directions>)
    requires ValidOffer(offer) && ValidOffer(offer') && x.offer == offer
    requires x.originate && !y.originate && x.state.Negotiating? && !y.state.Connected?
    requires Blank(x, bytes) && InTime(x, now) && x.urgent == []
    ensures var x' := Receive(x, Bytes(XidReplyFrame(y, offer, offer')), now);
      && Blank(x', bytes) && InTime(x', now) && x'.state.Establishing? && x'.originate
      && x'.urgent == [SabmeOf(x)]
  {
    hide XidField.Bytes, Receive, XidResponse, Blank, Bytes, Reply, Agreement;
    HearsUnnumbered(x, now, XidReplyFrame(y, offer, offer'));
    XidReplySettles(x, offer, offer');
    XidResponseBlank(x, XidField.Bytes(XidReply(Reply(offer, offer'))), bytes);
  }

  lemma HearsSabme(x: End, y: End, bytes: Octets, now: int)
    requires x.originate && !y.originate && y.state.Waiting? && Blank(y, bytes) && InTime(y, now) && y.urgent == []
    ensures var y' := Receive(y, Bytes(SabmeOf(x).0), now);
      && Blank(y', bytes) && y'.state.Connected? && y'.timer.None? && !y'.originate
      && y'.urgent == [(UnnumberedFrame(y, false, Ua, true, []), false)]
  {
    hide Receive, Bytes;
    HearsUnnumbered(y, now, SabmeOf(x).0);
  }

  lemma HearsUa(x: End, y: End, bytes: Octets, now: int)
    requires x.originate && !y.originate && x.state.Establishing? && Blank(x, bytes) && InTime(x, now) && x.urgent == []
    ensures var x' := Receive(x, Bytes(UnnumberedFrame(y, false, Ua, true, [])), now);
      && Blank(x', bytes) && x'.state.Connected? && x'.timer.None? && x'.urgent == [] && x'.originate
  {
    hide Receive, Bytes;
    HearsUnnumbered(x, now, UnnumberedFrame(y, false, Ua, true, []));
  }

  /** A frame that leaves one end is heard by the other. */
  lemma Passes(s: Pair, side: Side, now: int, f: Frame)
    requires At(s, side).out == [] && At(s, Other(side)).out == []
    requires NextFrame(At(s, side).end, now).1 == Some(f)
    ensures var s' := Turned(s, side, now);
      var x, y, x', y' := At(s, side), At(s, Other(side)), At(s', side), At(s', Other(side));
      && x'.end == NextFrame(x.end, now).0 && y'.end == Receive(y.end, Bytes(f), now)
      && x'.out == [] && y'.out == [] && x'.given == x.given && y'.given == y.given
      && x'.taken == x.taken && y'.taken == y.taken
  {
    hide NextFrame, Receive, Bytes, Expire, Turned, Act;
    TurnedIs(s, side, now);
    var x1 := TransmitFrom(At(s, side), now);
    assert x1.out[0].frame == f && x1.out[1..] == [];
  }

  /** Each end with its text still to come, and nothing on its way. */
  ghost predicate Before(s: Pair, now: int, bytes: Octets, bytes': Octets) {
    && Blank(s.caller.end, bytes) && s.caller.end.originate && s.caller.given == bytes
    && Blank(s.called.end, bytes') && !s.called.end.originate && s.called.given == bytes'
    && InTime(s.caller.end, now) && InTime(s.called.end, now)
    && s.caller.out == [] && s.called.out == [] && s.caller.taken == [] && s.called.taken == []
  }

  ghost predicate Proposing(s: Pair, offer: Option<Directions>, offer': Option<Directions>) {
    var c, d := s.caller.end, s.called.end;
    && c.state.Negotiating? && c.offer == offer && c.urgent == [XidCommandOf(c)]
    && d.state.Waiting? && d.offer == offer' && d.urgent == [] && d.compression.None?
  }

  ghost predicate Replying(s: Pair, offer: Option<Directions>, offer': Option<Directions>, y: End) {
    var c, d := s.caller.end, s.called.end;
    && c.state.Negotiating? && c.offer == offer && c.urgent == []
    && d.state.Waiting? && d.urgent == [(XidReplyFrame(y, offer, offer'), false)]
    && !y.originate && !y.state.Connected?
  }

  ghost predicate Calling(s: Pair, x: End) {
    var c, d := s.caller.end, s.called.end;
    c.state.Establishing? && c.urgent == [SabmeOf(x)] && d.state.Waiting? && d.urgent == [] && x.originate
  }

  ghost predicate Accepting(s: Pair, y: End) {
    var c, d := s.caller.end, s.called.end;
    && c.state.Establishing? && c.urgent == []
    && d.state.Connected? && d.timer.None? && d.urgent == [(UnnumberedFrame(y, false, Ua, true, []), false)]
    && !y.originate
  }

  lemma Proposes(
      s: Pair, now: int, bytes: Octets, bytes': Octets, offer: Option<Directions>, offer': Option<Directions>)
    requires ValidOffer(offer) && ValidOffer(offer')
    requires Before(s, now, bytes, bytes') && Proposing(s, offer, offer')
    ensures var s' := Turned(s, Caller, now);
      Before(s', now, bytes, bytes') && Replying(s', offer, offer', s.called.end)
  {
    hide NextFrame, Receive, Turned, Blank, InTime, XidCommandOf, Bytes, XidReplyFrame;
    var c, d := s.caller.end, s.called.end;
    SendsUrgent(c, bytes, now, XidCommandOf(c).0, XidCommandOf(c).1);
    HearsXidCommand(c, d, bytes', now, offer, offer');
    Passes(s, Caller, now, XidCommandOf(c).0);
  }

  lemma Replies(
      s: Pair, now: int, bytes: Octets, bytes': Octets, offer: Option<Directions>, offer': Option<Directions>, y: End)
    requires ValidOffer(offer) && ValidOffer(offer')
    requires Before(s, now, bytes, bytes') && Replying(s, offer, offer', y)
    ensures var s' := Turned(s, Called, now);
      Before(s', now, bytes, bytes') && Calling(s', s.caller.end)
  {
    hide NextFrame, Receive, Turned, Blank, InTime, Bytes, XidReplyFrame, SabmeOf;
    var c, d := s.caller.end, s.called.end;
    SendsUrgent(d, bytes', now, XidReplyFrame(y, offer, offer'), false);
    HearsXidReply(c, y, bytes, now, offer, offer');
    Passes(s, Called, now, XidReplyFrame(y, offer, offer'));
  }

  lemma Calls(s: Pair, now: int, bytes: Octets, bytes': Octets, x: End)
    requires Before(s, now, bytes, bytes') && Calling(s, x)
    ensures var s' := Turned(s, Caller, now);
      Before(s', now, bytes, bytes') && Accepting(s', s.called.end)
  {
    hide NextFrame, Receive, Turned, Blank, Bytes, SabmeOf, UnnumberedFrame;
    var c, d := s.caller.end, s.called.end;
    SendsUrgent(c, bytes, now, SabmeOf(x).0, SabmeOf(x).1);
    HearsSabme(x, d, bytes', now);
    Passes(s, Caller, now, SabmeOf(x).0);
  }

  lemma Accepts(s: Pair, now: int, bytes: Octets, bytes': Octets, y: End)
    requires Before(s, now, bytes, bytes') && Accepting(s, y)
    ensures var s' := Turned(s, Called, now);
      && Level(s'.caller, s'.called, now) && s'.caller.given == bytes && s'.called.given == bytes'
  {
    hide NextFrame, Receive, Turned, Blank, Bytes, UnnumberedFrame, Level;
    var c, d := s.caller.end, s.called.end;
    SendsUrgent(d, bytes', now, UnnumberedFrame(y, false, Ua, true, []), false);
    HearsUa(c, y, bytes, now);
    Passes(s, Called, now, UnnumberedFrame(y, false, Ua, true, []));
    BlankIsLevel(Turned(s, Called, now), now, bytes, bytes');
  }

  lemma BlankIsLevel(s: Pair, now: int, bytes: Octets, bytes': Octets)
    requires Before(s, now, bytes, bytes') && s.caller.end.state.Connected? && s.called.end.state.Connected?
    requires s.caller.end.urgent == s.called.end.urgent == []
    requires s.caller.end.timer.None? && s.called.end.timer.None?
    ensures Level(s.caller, s.called, now)
  {
    NoneAfter(0);
    assert [] + [] + bytes == bytes && [] + [] + bytes' == bytes';
  }

  function Opening(now: int): seq<Action> {
    [Transmit(Caller, now), Arrive(Called, now), Transmit(Called, now), Arrive(Caller, now),
     Transmit(Caller, now), Arrive(Called, now), Transmit(Called, now), Arrive(Caller, now)]
  }

  lemma OpensInTurns(s: Pair, now: int)
    ensures Run(s, Opening(now))
      == Turned(Turned(Turned(Turned(s, Caller, now), Called, now), Caller, now), Called, now)
  {
    hide Turned, Run;
    var actions := Opening(now);
    RunsTurn(s, Caller, now, actions[2..]);
    var s1 := Turned(s, Caller, now);
    RunsTurn(s1, Called, now, actions[4..]);
    var s2 := Turned(s1, Called, now);
    RunsTurn(s2, Caller, now, actions[6..]);
    var s3 := Turned(s2, Caller, now);
    RunsTurn(s3, Called, now, []);
    NothingRuns(Turned(s3, Called, now));
    assert actions == [Transmit(Caller, now), Arrive(Other(Caller), now)] + actions[2..];
    assert actions[2..] == [Transmit(Called, now), Arrive(Other(Called), now)] + actions[4..];
    assert actions[4..] == [Transmit(Caller, now), Arrive(Other(Caller), now)] + actions[6..];
    assert actions[6..] == [Transmit(Called, now), Arrive(Other(Called), now)] + [];
  }

  /** The pair at its start, once each end was given its text. */
  function Given(
      t401: nat, offer: Option<Directions>, t401': nat, now: int, offer': Option<Directions>,
      bytes: Octets, bytes': Octets): Pair
  {
    var s := Start(t401, offer, t401', now, offer');
    Pair(GiveTo(s.caller, bytes), GiveTo(s.called, bytes'))
  }

  lemma GivenProposes(
      t401: nat, offer: Option<Directions>, t401': nat, now: int, offer': Option<Directions>,
      bytes: Octets, bytes': Octets)
    requires t401 >= 1 && t401' >= 1
    ensures var s := Given(t401, offer, t401', now, offer', bytes, bytes');
      && Before(s, now, bytes, bytes') && Proposing(s, offer, offer')
      && Run(Start(t401, offer, t401', now, offer'), [Give(Caller, bytes), Give(Called, bytes')]) == s
  {
    hide XidField.Bytes, OwnXid;
    assert [] + bytes == bytes && [] + bytes' == bytes';
    RunsTwo(Start(t401, offer, t401', now, offer'), Give(Caller, bytes), Give(Called, bytes'));
  }

  lemma RunsTwo(s: Pair, a: Action, b: Action)
    ensures Run(s, [a, b]) == Act(Act(s, a), b)
  {
    hide Act;
    assert [a, b][1..] == [b] && [b][1..] == [];
    NothingRuns(Act(Act(s, a), b));
  }

  /**
   * On a line that loses nothing, from the start and whatever both ends offer and are given, there is a run that
   * connects them and in which everything given is delivered in order and acknowledged.
   */
  lemma EverythingArrives(
      t401: nat, offer: Option<Directions>, t401': nat, now: int, offer': Option<Directions>,
      bytes: Octets, bytes': Octets) returns (actions: seq<Action>)
    requires t401 >= 1 && t401' >= 1 && ValidOffer(offer) && ValidOffer(offer')
    ensures forall a :: a in actions ==> a.Transmit? || a.Arrive?
    ensures var given := Run(Start(t401, offer, t401', now, offer'), [Give(Caller, bytes), Give(Called, bytes')]);
      var s := Run(given, actions);
      AllDelivered(s) && s.caller.given == bytes && s.called.given == bytes'
  {
    hide Run, Turned, Before, Proposing, Replying, Calling, Accepting, Level, AllDelivered, Given;
    GivenProposes(t401, offer, t401', now, offer', bytes, bytes');
    var s := Given(t401, offer, t401', now, offer', bytes, bytes');
    var s1 := Turned(s, Caller, now);
    var s2 := Turned(s1, Called, now);
    var s3 := Turned(s2, Caller, now);
    var s4 := Turned(s3, Called, now);
    Proposes(s, now, bytes, bytes', offer, offer');
    Replies(s1, now, bytes, bytes', offer, offer', s.called.end);
    Calls(s2, now, bytes, bytes', s1.caller.end);
    Accepts(s3, now, bytes, bytes', s2.called.end);
    OpensInTurns(s, now);
    var rest := Deliver(s4, Caller, now);
    actions := Opening(now) + rest;
    RunsOn(s, Opening(now), rest);
  }
}
