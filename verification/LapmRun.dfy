/** Every run of the pair: what is delivered, what is agreed, and why a connection is released. */
module LapmRun {
  import opened Prelude
  import opened Arithmetic
  import opened LapmFrame
  import XidField
  import opened Negotiation
  import opened Lapm
  import opened LapmPair

  /** What the caller has settled on by the time it is connected (`NegotiatesAlike`). */
  function Agreement(offer: Option<Directions>, offer': Option<Directions>): Option<Directions> {
    if offer.None? then None else Agreed(offer.value, offer')
  }

  /** P0 to P2 of the called end's reply to the caller's offer. */
  function Reply(offer: Option<Directions>, offer': Option<Directions>): Option<XidField.Compression> {
    if offer.None? then None
    else
      match Answer(offer', Proposal(offer.value))
      case Ok((reply, _)) => Some(reply)
      case ProceduralError => None
  }

  function XidReply(compression: Option<XidField.Compression>): XidField.Xid {
    XidField.Xid(0, Some(DEFAULT_N401), Some(DEFAULT_N401), Some(DEFAULT_K), Some(DEFAULT_K), compression)
  }

  predicate ValidOffer(offer: Option<Directions>) {
    offer.Some? ==> offer.value.parameters.Valid()
  }

  predicate Plain(f: Frame) {
    match f.control
    case I(_, _, poll) => !poll
    case S(kind, _, _) => (kind == Rr || kind == Rej) && f.info == []
    case U(_, _) => false
  }

  /** What the caller puts first: no SABME while it still negotiates, and none before the called end has settled. */
  ghost predicate CallerUrgent(f: Frame, offer: Option<Directions>, negotiating: bool, settled: bool) {
    || (f.cr && f.control == U(Xid, false) && f.info == XidField.Bytes(OwnXid(offer)))
    || (f.cr && f.control == U(Sabme, true) && f.info == [] && !negotiating && settled)
  }

  /** What the called end puts first: its XID responses follow its settling, and settle the caller. */
  ghost predicate CalledUrgent(f: Frame, reply: Option<XidField.Compression>, negotiating: bool, settled: bool) {
    || (f.cr && f.control == U(Xid, false) && settled
        && (f.info == XidField.Bytes(XidReply(reply)) || (f.info == XidField.Bytes(XidReply(None)) && !negotiating)))
    || (f.cr && f.control.U? && f.control.command == Ua && f.info == [])
  }

  ghost predicate CallerFrames(x: Half, offer: Option<Directions>, negotiating: bool, settled: bool) {
    && (forall i :: 0 <= i < |x.end.urgent| ==> CallerUrgent(x.end.urgent[i].0, offer, negotiating, settled))
    && (forall i :: 0 <= i < |x.out| ==>
      (Plain(x.out[i].frame) && (x.out[i].frame.control.I? ==> x.out[i].frame.cr))
      || CallerUrgent(x.out[i].frame, offer, negotiating, settled))
  }

  ghost predicate CalledFrames(x: Half, reply: Option<XidField.Compression>, negotiating: bool, settled: bool) {
    && (forall i :: 0 <= i < |x.end.urgent| ==> CalledUrgent(x.end.urgent[i].0, reply, negotiating, settled))
    && (forall i :: 0 <= i < |x.out| ==>
      (Plain(x.out[i].frame) && (x.out[i].frame.control.I? ==> !x.out[i].frame.cr))
      || CalledUrgent(x.out[i].frame, reply, negotiating, settled))
  }

  predicate HasSettled(e: End, offer: Option<Directions>, offer': Option<Directions>) {
    e.compression == Mirrored(Agreement(offer, offer'))
  }

  /** How far establishment has come, at both ends and on the way. */
  ghost predicate Talking(s: Pair, offer: Option<Directions>, offer': Option<Directions>) {
    var a, b := s.caller.end, s.called.end;
    var negotiating, settled := a.state.Negotiating?, HasSettled(b, offer, offer');
    && a.originate && a.offer == offer && !a.state.Waiting?
    && !b.originate && b.offer == offer' && !b.state.Negotiating? && !b.state.Establishing?
    && CallerFrames(s.caller, offer, negotiating, settled)
    && CalledFrames(s.called, Reply(offer, offer'), negotiating, settled)
    && (negotiating ==> !b.state.Connected?)
    && (a.state.Establishing? || a.state.Connected? ==> a.compression == Agreement(offer, offer') && settled)
    && (b.state.Connected? ==> settled)
    && (b.compression.None? || settled)
  }

  ghost predicate SystemOk(s: Pair, offer: Option<Directions>, offer': Option<Directions>) {
    PairOk(s) && Talking(s, offer, offer')
  }

  // Which fields each event may change.

  predicate SameTerms(e: End, e': End) {
    e'.compression == e.compression && e'.offer == e.offer && e'.originate == e.originate
  }

  function XidCommandOf(e: End): (Frame, bool) {
    (Frame(Cr(e, true), U(Xid, false), XidField.Bytes(OwnXid(e.offer))), true)
  }

  function SabmeOf(e: End): (Frame, bool) {
    (Frame(Cr(e, true), U(Sabme, true), []), true)
  }

  /** Only the timer, the retries, the conditions and what is owed differ, and what is urgent as given. */
  predicate Leaves(e: End, e': End, state: State, urgent: seq<(Frame, bool)>) {
    SameTerms(e, e') && e'.state == state && e'.urgent == urgent
  }

  lemma ReleaseLeaves(e: End, e': End, urgent: seq<(Frame, bool)>)
    requires Leaves(e, e', e'.state, urgent)
    ensures Leaves(e, Release(e'), Released, urgent)
  {
  }

  lemma RetryLeaves(e: End, e': End)
    requires Leaves(e, e', e.state, e.urgent)
    ensures Leaves(e, SendXid(e'), e.state, e.urgent + [XidCommandOf(e)])
    ensures Leaves(e, SendSabme(e'), e.state, e.urgent + [SabmeOf(e)])
  {
    hide XidField.Bytes, OwnXid;
  }

  lemma TimerLeaves(e: End)
    ensures Leaves(e, e.(timer := None), e.state, e.urgent)
    ensures Leaves(e, e.(timer := None, retries := e.retries + 1), e.state, e.urgent)
    ensures e.state.Connected? ==>
      Leaves(e, e.(timer := None, recovery := true, retries := if e.recovery then e.retries + 1 else 0,
        owed := e.owed.(poll := true)), e.state, e.urgent)
    ensures var polls := e.(timer := None, recovery := true, retries := if e.recovery then e.retries + 1 else 0);
      Leaves(e, polls, e.state, e.urgent)
  {
  }

  lemma ExpireLeaves(e: End, now: int)
    ensures var e' := Expire(e, now);
      || Leaves(e, e', e.state, e.urgent)
      || Leaves(e, e', Released, e.urgent)
      || (e.state.Negotiating? && Leaves(e, e', e.state, e.urgent + [XidCommandOf(e)]))
      || (e.state.Establishing? && Leaves(e, e', e.state, e.urgent + [SabmeOf(e)]))
  {
    hide Leaves, Release, SendXid, SendSabme, XidCommandOf, SabmeOf;
    NothingLeaves(e);
    ReleaseLeaves(e, e, e.urgent);
    TimerLeaves(e);
    var e1 := e.(timer := None);
    var e2 := e1.(retries := e.retries + 1);
    LeavesState(e, e2, e.urgent);
    RetryLeaves(e, e2);
    var e3 := e1.(recovery := true, retries := if e.recovery then e.retries + 1 else 0);
    LeavesState(e, e3, e.urgent);
  }

  lemma NothingLeaves(e: End)
    ensures Leaves(e, e, e.state, e.urgent)
  {
  }

  lemma LeavesState(e: End, e': End, urgent: seq<(Frame, bool)>)
    requires Leaves(e, e', e.state, urgent)
    ensures Leaves(e, Release(e'), Released, urgent)
  {
  }

  /** The frame sent is the first of those urgent, or a numbered one. */
  lemma NextLeaves(e0: End, now: int)
    ensures var e := Expire(e0, now);
      var (e', frame) := NextFrame(e0, now);
      && SameTerms(e, e') && e'.state == e.state
      && (e.urgent != [] ==> frame == Some(e.urgent[0].0) && e'.urgent == e.urgent[1..])
      && (e.urgent == [] ==> e'.urgent == [])
      && (e.urgent == [] && frame.Some? ==>
        Plain(frame.value) && (frame.value.control.I? ==> frame.value.cr == e.originate))
  {
    hide Expire, NextNumbered, Plain, SameTerms;
    var e := Expire(e0, now);
    Untouched(e, now);
    NextNumberedLeaves(e, now);
  }

  lemma Untouched(e: End, now: int)
    ensures SameTerms(e, e)
    ensures e.urgent != [] ==> SameTerms(e, UrgentSent(e, now)) && UrgentSent(e, now).state == e.state
  {
  }

  function UrgentSent(e: End, now: int): End
    requires e.urgent != []
  {
    e.(urgent := e.urgent[1..], timer := if e.urgent[0].1 then Some(now + e.t401) else e.timer)
  }

  lemma NextNumberedLeaves(e: End, now: int)
    ensures var (e', frame) := NextNumbered(e, now);
      && SameTerms(e, e') && e'.state == e.state && e'.urgent == e.urgent
      && (frame.Some? ==> Plain(frame.value) && (frame.value.control.I? ==> frame.value.cr == e.originate))
  {
    hide NextIFrame, OwedFrame, Paid;
    IFrameLeaves(e, now);
    OwedIsPlain(e);
  }

  lemma IFrameLeaves(e: End, now: int)
    ensures var (e', frame) := NextIFrame(e, now);
      && SameTerms(e, e') && e'.state == e.state && e'.urgent == e.urgent
      && (frame.Some? ==> Plain(frame.value) && (frame.value.control.I? ==> frame.value.cr == e.originate))
  {
  }

  lemma OwedIsPlain(e: End)
    ensures Plain(OwedFrame(e)) && !OwedFrame(e).control.I?
  {
  }

  lemma AcknowledgeLeaves(e: End, nr: Seven, now: int)
    ensures var e' := Acknowledge(e, nr, now).0;
      SameTerms(e, e') && e'.urgent == e.urgent && e'.state == e.state
  {
  }

  lemma InformedLeaves(e: End, ns: Seven, poll: bool, info: Octets)
    ensures Leaves(e, Informed(e, ns, poll, info), e.state, e.urgent)
  {
  }

  lemma SupervisedLeaves(e: End, kind: Supervisory, nr: Seven, pf: bool, command: bool, now: int)
    ensures Leaves(e, Supervised(e, kind, nr, pf, command, now), e.state, e.urgent)
  {
  }

  lemma ConnectLeaves(e: End)
    ensures Leaves(e, Connect(e), Connected, e.urgent)
  {
  }

  lemma ConnectedLeaves(e: End, frame: Frame, command: bool, now: int)
    requires !frame.control.U? && e.state.Connected?
    ensures var e' := ReceiveNumbered(e, frame, command, now);
      Leaves(e, e', Connected, e.urgent) || Leaves(e, e', Released, e.urgent)
  {
    hide Acknowledge, Informed, Supervised, Release, Leaves;
    NothingLeaves(e);
    ReleaseLeaves(e, e, e.urgent) by {
      NothingLeaves(e);
    }
    match frame.control
    case I(ns, nr, poll) =>
      var e1 := Acknowledge(e, nr, now).0;
      AcknowledgeLeaves(e, nr, now);
      InformedLeaves(e1, ns, poll, frame.info);
      LeavesThrough(e, e1, Informed(e1, ns, poll, frame.info));
    case S(kind, nr, pf) =>
      var e1 := Acknowledge(e, nr, now).0;
      AcknowledgeLeaves(e, nr, now);
      SupervisedLeaves(e1, kind, nr, pf, command, now);
      LeavesThrough(e, e1, Supervised(e1, kind, nr, pf, command, now));
  }

  lemma LeavesThrough(e: End, e1: End, e': End)
    requires SameTerms(e, e1) && e1.urgent == e.urgent && e1.state == e.state && Leaves(e1, e', e1.state, e1.urgent)
    ensures Leaves(e, e', e.state, e.urgent) && Leaves(e, Release(e1), Released, e.urgent)
  {
  }

  lemma NumberedLeaves(e: End, frame: Frame, command: bool, now: int)
    requires !frame.control.U?
    ensures var e' := ReceiveNumbered(e, frame, command, now);
      if e.state.Connected? || e.state.Establishing? then
        Leaves(e, e', Connected, e.urgent) || Leaves(e, e', Released, e.urgent)
      else e' == e
  {
    hide Information, ReceiveSupervisory, Connect;
    if e.state.Establishing? {
      ConnectLeaves(e);
      ConnectedLeaves(Connect(e), frame, command, now);
    } else if e.state.Connected? {
      ConnectedLeaves(e, frame, command, now);
    }
  }

  // Steps keep the ends talking.

  /** What a transmission does to what is on its way. */
  lemma TransmitMoves(x: Half, now: int)
    ensures var e, x' := Expire(x.end, now), TransmitFrom(x, now);
      && SameTerms(e, x'.end) && x'.end.state == e.state
      && (x'.end.urgent == e.urgent || (e.urgent != [] && x'.end.urgent == e.urgent[1..]))
      && (x'.out == x.out
        || (|x'.out| == |x.out| + 1 && x'.out[..|x.out|] == x.out
          && (if e.urgent != [] then x'.out[|x.out|].frame == e.urgent[0].0
            else
              && Plain(x'.out[|x.out|].frame)
              && (x'.out[|x.out|].frame.control.I? ==> x'.out[|x.out|].frame.cr == e.originate))))
  {
    hide Expire, NextFrame;
    NextLeaves(x.end, now);
    var x' := TransmitFrom(x, now);
    var frame := NextFrame(x.end, now).1;
    if frame.Some? {
      assert x'.out[..|x.out|] == x.out && x'.out[|x.out|].frame == frame.value;
    }
  }

  /** The caller after its timer is looked at. */
  lemma CallerExpires(s: Pair, offer: Option<Directions>, offer': Option<Directions>, now: int)
    requires Talking(s, offer, offer')
    ensures var e := Expire(s.caller.end, now);
      Talking(s.(caller := s.caller.(end := e)), offer, offer') && UrgentOk(e)
  {
    hide Expire, Agreement, Reply, Mirrored, XidField.Bytes;
    ExpireLeaves(s.caller.end, now);
  }

  lemma CallerTransmits(s: Pair, offer: Option<Directions>, offer': Option<Directions>, now: int)
    requires Talking(s, offer, offer')
    ensures Talking(s.(caller := TransmitFrom(s.caller, now)), offer, offer')
    ensures UrgentOk(Expire(s.caller.end, now))
  {
    hide Expire, Agreement, Reply, Mirrored, TransmitFrom, CallerUrgent, CalledFrames, Plain;
    CallerExpires(s, offer, offer', now);
    TransmitMoves(s.caller, now);
  }

  lemma CalledExpires(s: Pair, offer: Option<Directions>, offer': Option<Directions>, now: int)
    requires Talking(s, offer, offer')
    ensures var e := Expire(s.called.end, now);
      Talking(s.(called := s.called.(end := e)), offer, offer') && UrgentOk(e)
  {
    hide Expire, Agreement, Reply, Mirrored, XidField.Bytes;
    ExpireLeaves(s.called.end, now);
  }

  lemma CalledTransmits(s: Pair, offer: Option<Directions>, offer': Option<Directions>, now: int)
    requires Talking(s, offer, offer')
    ensures Talking(s.(called := TransmitFrom(s.called, now)), offer, offer')
    ensures UrgentOk(Expire(s.called.end, now))
  {
    hide Expire, Agreement, Reply, Mirrored, TransmitFrom, CalledUrgent, CallerFrames, Plain;
    CalledExpires(s, offer, offer', now);
    TransmitMoves(s.called, now);
  }

  /** Giving, taking and losing change nothing of the talk. */
  lemma IdleTalks(s: Pair, s': Pair, offer: Option<Directions>, offer': Option<Directions>)
    requires Talking(s, offer, offer')
    requires Leaves(s.caller.end, s'.caller.end, s.caller.end.state, s.caller.end.urgent)
    requires Leaves(s.called.end, s'.called.end, s.called.end.state, s.called.end.urgent)
    requires forall i :: 0 <= i < |s'.caller.out| ==> s'.caller.out[i] in s.caller.out
    requires forall i :: 0 <= i < |s'.called.out| ==> s'.called.out[i] in s.called.out
    ensures Talking(s', offer, offer')
  {
    hide Agreement, Reply, Mirrored, CalledUrgent, CallerUrgent, Plain;
  }

  // Arrivals at the called end.

  lemma OwnXidParses(offer: Option<Directions>)
    ensures XidField.Parse(XidField.Bytes(OwnXid(offer))) == Some(OwnXid(offer))
  {
    hide XidField.Parse, XidField.Bytes;
    NothingCommon();
    XidField.ParsesBytes(OwnXid(offer));
  }

  lemma NothingCommon()
    ensures BitAnd(0, XidField.REQUIRED_FUNCTIONS) == 0
  {
  }

  /** A connected end that hears an XID again keeps its compression and answers without it. */
  function XidReplyFrame(e: End, offer: Option<Directions>, offer': Option<Directions>): Frame {
    var reply := if e.state.Connected? then None else Reply(offer, offer');
    Frame(Cr(e, false), U(Xid, false), XidField.Bytes(XidReply(reply)))
  }

  /** An XID command settles the called end, once and for all. */
  lemma XidCommandSettles(e: End, offer: Option<Directions>, offer': Option<Directions>)
    requires ValidOffer(offer) && ValidOffer(offer') && e.offer == offer'
    requires e.compression.None? || HasSettled(e, offer, offer')
    requires e.state.Connected? ==> HasSettled(e, offer, offer')
    ensures var e' := XidCommand(e, XidField.Bytes(OwnXid(offer)));
      && HasSettled(e', offer, offer') && e'.offer == e.offer && e'.originate == e.originate && e'.state == e.state
      && e'.urgent == e.urgent + [(XidReplyFrame(e, offer, offer'), false)]
  {
    hide XidField.Parse, XidField.Bytes, Answer, Agreed;
    OwnXidParses(offer);
    if offer.Some? {
      BothEndsAgree(offer.value, offer');
    }
  }

  /** A change at the called end that keeps to the talk. */
  lemma CalledBecomes(s: Pair, offer: Option<Directions>, offer': Option<Directions>, e': End, more: seq<(Frame, bool)>)
    requires Talking(s, offer, offer')
    requires var e := s.called.end;
      && e'.originate == e.originate && e'.offer == e.offer
      && (HasSettled(e, offer, offer') ==> HasSettled(e', offer, offer'))
      && (e'.compression.None? || HasSettled(e', offer, offer'))
      && (e'.state == e.state || e'.state.Released? || (e'.state.Connected? && !s.caller.end.state.Negotiating?))
      && (e'.state.Connected? ==> HasSettled(e', offer, offer'))
      && e'.urgent == e.urgent + more
    requires forall i :: 0 <= i < |more| ==>
      CalledUrgent(more[i].0, Reply(offer, offer'), s.caller.end.state.Negotiating?, HasSettled(e', offer, offer'))
    ensures Talking(s.(called := s.called.(end := e')), offer, offer')
  {
    hide Agreement, Reply, Mirrored, Plain, XidField.Bytes;
  }

  /** Taking a frame out of a channel, and giving an end what it makes of it. */
  lemma CalledPops(s: Pair, offer: Option<Directions>, offer': Option<Directions>)
    requires s.caller.out != [] && Talking(s, offer, offer')
    ensures Talking(s.(caller := s.caller.(out := s.caller.out[1..])), offer, offer')
    ensures var f := s.caller.out[0].frame;
      (Plain(f) && (f.control.I? ==> f.cr))
      || CallerUrgent(f, offer, s.caller.end.state.Negotiating?, HasSettled(s.called.end, offer, offer'))
  {
    hide Agreement, Reply, Mirrored, Plain, CallerUrgent, CalledUrgent;
  }

  lemma CallerFrameWellFormed(f: Frame, offer: Option<Directions>, negotiating: bool, settled: bool)
    requires (Plain(f) && (f.control.I? ==> f.cr)) || CallerUrgent(f, offer, negotiating, settled)
    ensures WellFormed(f)
  {
    hide XidField.Bytes;
  }

  lemma CalledXid(s: Pair, offer: Option<Directions>, offer': Option<Directions>, info: Octets)
    requires ValidOffer(offer) && ValidOffer(offer') && info == XidField.Bytes(OwnXid(offer))
    requires Talking(s, offer, offer')
    ensures var e' := ReceiveUnnumbered(s.called.end, Xid, false, true, info);
      Talking(s.(called := s.called.(end := e')), offer, offer')
  {
    hide XidField.Bytes, XidCommand, Reply, Agreement, Mirrored, CallerFrames, CalledFrames;
    var e := s.called.end;
    if !e.state.Released? {
      TalkingCalled(s, offer, offer');
      XidCommandSettles(e, offer, offer');
      var e' := XidCommand(e, info);
      var more := [(XidReplyFrame(e, offer, offer'), false)];
      CalledBecomes(s, offer, offer', e', more);
    }
  }

  lemma TalkingCalled(s: Pair, offer: Option<Directions>, offer': Option<Directions>)
    requires Talking(s, offer, offer')
    ensures var e := s.called.end;
      && e.offer == offer' && !e.originate && (e.compression.None? || HasSettled(e, offer, offer'))
      && (e.state.Connected? ==> HasSettled(e, offer, offer') && !s.caller.end.state.Negotiating?)
  {
  }

  lemma CalledSabme(s: Pair, offer: Option<Directions>, offer': Option<Directions>)
    requires !s.caller.end.state.Negotiating? && HasSettled(s.called.end, offer, offer')
    requires Talking(s, offer, offer')
    ensures var e' := ReceiveUnnumbered(s.called.end, Sabme, true, true, []);
      Talking(s.(called := s.called.(end := e')), offer, offer')
  {
    hide XidField.Bytes, Connect, Release, Reply, Agreement, Mirrored, CallerFrames, CalledFrames;
    var e := s.called.end;
    TalkingCalled(s, offer, offer');
    var ua := (Frame(Cr(e, false), U(Ua, true), []), false);
    if e.state.Waiting? {
      ConnectLeaves(e);
      ConnectAnswers(e);
      CalledBecomes(s, offer, offer', Respond(Connect(e), Ua, true, []), [ua]);
    } else if e.state.Connected? {
      NothingLeaves(e);
      ReleaseLeaves(e, e, e.urgent);
      assert e.urgent + [] == e.urgent;
      CalledBecomes(s, offer, offer', Release(e), []);
      CalledBecomes(s, offer, offer', Respond(e, Ua, true, []), [ua]);
    }
  }

  lemma ConnectAnswers(e: End)
    ensures var e' := Respond(Connect(e), Ua, true, []);
      SameTerms(e, e') && e'.state.Connected? && e'.urgent == e.urgent + [(Frame(Cr(e, false), U(Ua, true), []), false)]
  {
  }

  lemma CalledNumbered(
      s: Pair, offer: Option<Directions>, offer': Option<Directions>, f: Frame, command: bool, now: int)
    requires !f.control.U? && Talking(s, offer, offer')
    ensures var e' := ReceiveNumbered(s.called.end, f, command, now);
      Talking(s.(called := s.called.(end := e')), offer, offer')
  {
    hide ReceiveNumbered, Reply, Agreement, Mirrored, CallerFrames, CalledFrames;
    var e := s.called.end;
    TalkingCalled(s, offer, offer');
    NumberedLeaves(e, f, command, now);
    if e.state.Connected? {
      assert e.urgent + [] == e.urgent;
      CalledBecomes(s, offer, offer', ReceiveNumbered(e, f, command, now), []);
    } else {
      NotEstablishing(s, offer, offer');
    }
  }

  lemma NotEstablishing(s: Pair, offer: Option<Directions>, offer': Option<Directions>)
    requires Talking(s, offer, offer')
    ensures !s.called.end.state.Establishing? && !s.called.end.originate && s.caller.end.originate
  {
  }

  /** A frame of the caller's arrives at the called end. */
  lemma CalledArrives(s: Pair, offer: Option<Directions>, offer': Option<Directions>, now: int)
    requires ValidOffer(offer) && ValidOffer(offer') && s.caller.out != []
    requires Talking(s, offer, offer')
    ensures Talking(Pair(s.caller.(out := s.caller.out[1..]), ArriveAt(s.called, s.caller.out[0], now)), offer, offer')
    ensures WellFormed(s.caller.out[0].frame)
  {
    hide Talking, Expire, ReceiveUnnumbered, ReceiveNumbered, Bytes, Parse, XidField.Bytes, HasSettled, Agreement;
    var p := s.caller.out[0];
    var f := p.frame;
    CalledPops(s, offer, offer');
    CallerFrameWellFormed(f, offer, s.caller.end.state.Negotiating?, HasSettled(s.called.end, offer, offer'));
    ParsesBytes(f);
    var s1 := s.(caller := s.caller.(out := s.caller.out[1..]));
    CalledExpires(s1, offer, offer', now);
    var e := Expire(s.called.end, now);
    var s2 := s1.(called := s1.called.(end := e));
    NotEstablishing(s2, offer, offer');
    SettledThroughExpiry(s.called.end, offer, offer', now);
    if f.control.U? {
      if f.control.command == Xid {
        CalledXid(s2, offer, offer', f.info);
      } else {
        CalledSabme(s2, offer, offer');
      }
    } else {
      CalledNumbered(s2, offer, offer', f, f.cr == !e.originate, now);
    }
    HeardAside(Pair(s1.caller, s1.called.(end := Receive(s.called.end, Bytes(f), now))),
      Pair(s1.caller, ArriveAt(s.called, p, now)), offer, offer');
  }

  lemma SettledThroughExpiry(e: End, offer: Option<Directions>, offer': Option<Directions>, now: int)
    ensures HasSettled(Expire(e, now), offer, offer') <==> HasSettled(e, offer, offer')
  {
    hide Expire, Agreement, Mirrored;
    ExpireLeaves(e, now);
  }

  /** The count of I frames heard does not enter into the talk. */
  lemma HeardAside(s: Pair, s': Pair, offer: Option<Directions>, offer': Option<Directions>)
    requires Talking(s, offer, offer')
    requires s'.caller.end == s.caller.end && s'.caller.out == s.caller.out
    requires s'.called.end == s.called.end && s'.called.out == s.called.out
    ensures Talking(s', offer, offer')
  {
    hide Agreement, Reply, Mirrored, CalledUrgent, CallerUrgent, Plain;
  }

  // Arrivals at the caller.

  lemma XidReplyParses(offer: Option<Directions>, offer': Option<Directions>)
    requires ValidOffer(offer) && ValidOffer(offer')
    ensures var x := XidReply(Reply(offer, offer')); XidField.Parse(XidField.Bytes(x)) == Some(x)
  {
    hide XidField.Parse, XidField.Bytes, Agreed;
    NothingCommon();
    if offer.Some? {
      AnswersAgreement(offer.value, offer');
    }
    XidField.ParsesBytes(XidReply(Reply(offer, offer')));
  }

  /** The called end's reply settles the caller, which goes on to establish. */
  lemma XidReplySettles(e: End, offer: Option<Directions>, offer': Option<Directions>)
    requires ValidOffer(offer) && ValidOffer(offer') && e.offer == offer && e.state.Negotiating?
    ensures var e' := XidResponse(e, XidField.Bytes(XidReply(Reply(offer, offer'))));
      && e'.compression == Agreement(offer, offer') && e'.offer == e.offer && e'.originate == e.originate
      && e'.state.Establishing? && e'.urgent == e.urgent + [SabmeOf(e)]
  {
    hide XidField.Parse, XidField.Bytes, Answer, Agreed, Conclude;
    XidReplyParses(offer, offer');
    if offer.Some? {
      BothEndsAgree(offer.value, offer');
    }
  }

  /** A change at the caller that keeps to the talk. */
  lemma CallerBecomes(s: Pair, offer: Option<Directions>, offer': Option<Directions>, e': End, more: seq<(Frame, bool)>)
    requires Talking(s, offer, offer')
    requires var e := s.caller.end;
      && e'.originate == e.originate && e'.offer == e.offer
      && !e'.state.Waiting? && (e'.state.Negotiating? ==> e.state.Negotiating?)
      && (e'.state.Establishing? || e'.state.Connected? ==>
        e'.compression == Agreement(offer, offer') && HasSettled(s.called.end, offer, offer'))
      && e'.urgent == e.urgent + more
    requires forall i :: 0 <= i < |more| ==>
      CallerUrgent(more[i].0, offer, e'.state.Negotiating?, HasSettled(s.called.end, offer, offer'))
    ensures Talking(s.(caller := s.caller.(end := e')), offer, offer')
  {
    hide Agreement, Reply, Mirrored, Plain, XidField.Bytes, HasSettled;
  }

  lemma CallerPops(s: Pair, offer: Option<Directions>, offer': Option<Directions>)
    requires s.called.out != [] && Talking(s, offer, offer')
    ensures Talking(s.(called := s.called.(out := s.called.out[1..])), offer, offer')
    ensures var f := s.called.out[0].frame;
      (Plain(f) && (f.control.I? ==> !f.cr))
      || CalledUrgent(f, Reply(offer, offer'), s.caller.end.state.Negotiating?, HasSettled(s.called.end, offer, offer'))
  {
    hide Agreement, Reply, Mirrored, Plain, CallerUrgent, CalledUrgent;
  }

  lemma CalledFrameWellFormed(f: Frame, reply: Option<XidField.Compression>, negotiating: bool, settled: bool)
    requires (Plain(f) && (f.control.I? ==> !f.cr)) || CalledUrgent(f, reply, negotiating, settled)
    ensures WellFormed(f)
  {
    hide XidField.Bytes;
  }

  lemma TalkingCaller(s: Pair, offer: Option<Directions>, offer': Option<Directions>)
    requires Talking(s, offer, offer')
    ensures var e := s.caller.end;
      && e.offer == offer && e.originate && !e.state.Waiting?
      && (e.state.Establishing? || e.state.Connected? ==>
        e.compression == Agreement(offer, offer') && HasSettled(s.called.end, offer, offer'))
  {
  }

  lemma CallerXid(s: Pair, offer: Option<Directions>, offer': Option<Directions>, info: Octets)
    requires ValidOffer(offer) && ValidOffer(offer') && HasSettled(s.called.end, offer, offer')
    requires s.caller.end.state.Negotiating? ==> info == XidField.Bytes(XidReply(Reply(offer, offer')))
    requires Talking(s, offer, offer')
    ensures var e' := ReceiveUnnumbered(s.caller.end, Xid, false, false, info);
      Talking(s.(caller := s.caller.(end := e')), offer, offer')
  {
    hide XidField.Bytes, XidResponse, Reply, Agreement, Mirrored, CallerFrames, CalledFrames, HasSettled;
    var e := s.caller.end;
    if e.state.Negotiating? {
      TalkingCaller(s, offer, offer');
      XidReplySettles(e, offer, offer');
      CallerBecomes(s, offer, offer', XidResponse(e, info), [SabmeOf(e)]);
    }
  }

  lemma CallerUa(s: Pair, offer: Option<Directions>, offer': Option<Directions>, pf: bool)
    requires Talking(s, offer, offer')
    ensures var e' := ReceiveUnnumbered(s.caller.end, Ua, pf, false, []);
      Talking(s.(caller := s.caller.(end := e')), offer, offer')
  {
    hide Connect, Reply, Agreement, Mirrored, CallerFrames, CalledFrames, HasSettled;
    var e := s.caller.end;
    if e.state.Establishing? && pf {
      TalkingCaller(s, offer, offer');
      ConnectLeaves(e);
      assert e.urgent + [] == e.urgent;
      CallerBecomes(s, offer, offer', Connect(e), []);
    }
  }

  lemma CallerNumbered(
      s: Pair, offer: Option<Directions>, offer': Option<Directions>, f: Frame, command: bool, now: int)
    requires !f.control.U? && Talking(s, offer, offer')
    ensures var e' := ReceiveNumbered(s.caller.end, f, command, now);
      Talking(s.(caller := s.caller.(end := e')), offer, offer')
  {
    hide ReceiveNumbered, Reply, Agreement, Mirrored, CallerFrames, CalledFrames, HasSettled;
    var e := s.caller.end;
    TalkingCaller(s, offer, offer');
    NumberedLeaves(e, f, command, now);
    if e.state.Connected? || e.state.Establishing? {
      assert e.urgent + [] == e.urgent;
      CallerBecomes(s, offer, offer', ReceiveNumbered(e, f, command, now), []);
    }
  }

  /** A frame of the called end's arrives at the caller. */
  lemma CallerArrives(s: Pair, offer: Option<Directions>, offer': Option<Directions>, now: int)
    requires ValidOffer(offer) && ValidOffer(offer') && s.called.out != []
    requires Talking(s, offer, offer')
    ensures Talking(Pair(ArriveAt(s.caller, s.called.out[0], now), s.called.(out := s.called.out[1..])), offer, offer')
    ensures WellFormed(s.called.out[0].frame)
  {
    hide Talking, Expire, ReceiveUnnumbered, ReceiveNumbered, Bytes, Parse, XidField.Bytes, HasSettled, Agreement,
      Reply;
    var p := s.called.out[0];
    var f := p.frame;
    CallerPops(s, offer, offer');
    CalledFrameWellFormed(
      f, Reply(offer, offer'), s.caller.end.state.Negotiating?, HasSettled(s.called.end, offer, offer'));
    ParsesBytes(f);
    var s1 := s.(called := s.called.(out := s.called.out[1..]));
    CallerExpires(s1, offer, offer', now);
    var e := Expire(s.caller.end, now);
    var s2 := s1.(caller := s1.caller.(end := e));
    NotEstablishing(s2, offer, offer');
    StateThroughExpiry(s.caller.end, now);
    if f.control.U? {
      if f.control.command == Xid {
        CallerXid(s2, offer, offer', f.info);
      } else {
        CallerUa(s2, offer, offer', f.control.pf);
      }
    } else {
      CallerNumbered(s2, offer, offer', f, f.cr == !e.originate, now);
    }
    HeardAside(Pair(s1.caller.(end := Receive(s.caller.end, Bytes(f), now)), s1.called),
      Pair(ArriveAt(s.caller, p, now), s1.called), offer, offer');
  }

  lemma StateThroughExpiry(e: End, now: int)
    ensures Expire(e, now).state == e.state || Expire(e, now).state.Released?
  {
    hide Expire;
    ExpireLeaves(e, now);
  }

  // Every run.

  lemma NewHalfOk(e: End)
    requires e.sent == [] && e.queue == [] && e.received == [] && e.vs == e.va == e.vr == 0
    requires 1 <= e.k <= 127 && e.n401 >= 1
    ensures EndOk(NewHalf(e))
  {
  }

  lemma NewPairOk(x: End, y: End)
    requires EndOk(NewHalf(x)) && EndOk(NewHalf(y))
    requires x.sent == y.sent == [] && x.received == y.received == []
    ensures Joined(NewHalf(x), NewHalf(y))
  {
    hide EndOk;
  }

  lemma StartTalks(t401: nat, offer: Option<Directions>, t401': nat, now: int, offer': Option<Directions>)
    ensures Talking(Start(t401, offer, t401', now, offer'), offer, offer')
  {
    hide XidField.Bytes, Reply, Agreement;
  }

  lemma StartOk(t401: nat, offer: Option<Directions>, t401': nat, now: int, offer': Option<Directions>)
    ensures SystemOk(Start(t401, offer, t401', now, offer'), offer, offer')
  {
    hide Joined, Talking, XidField.Bytes, EndOk, OwnXid;
    StartTalks(t401, offer, t401', now, offer');
    NewHalfOk(Originator(t401, offer));
    NewHalfOk(Answerer(t401', now, offer'));
    NewPairOk(Originator(t401, offer), Answerer(t401', now, offer'));
  }

  lemma CallerActs(s: Pair, a: Action, offer: Option<Directions>, offer': Option<Directions>)
    requires ValidOffer(offer) && ValidOffer(offer') && SystemOk(s, offer, offer') && a.side.Caller?
    ensures SystemOk(Act(s, a), offer, offer')
  {
    hide Joined, Talking, Leaves, TransmitFrom, ArriveAt, Without, GiveTo, TakeFrom;
    var x, y := s.caller, s.called;
    match a
    case Give(_, bytes) =>
      GiveKeeps(x, y, bytes);
      GiveIdles(x, bytes);
      NothingLeaves(y.end);
      IdleTalks(s, Act(s, a), offer, offer');
    case Take(_) =>
      TakeKeeps(x, y);
      TakeIdles(x);
      NothingLeaves(y.end);
      IdleTalks(s, Act(s, a), offer, offer');
    case Transmit(_, now) =>
      CallerTransmits(s, offer, offer', now);
      TransmitKeeps(x, y, now);
    case Arrive(_, now) =>
      if y.out != [] {
        CallerArrives(s, offer, offer', now);
        ArriveKeeps(x, y, now);
      }
    case Lose(_, i) =>
      LosesKeep(x, y, i);
      LoseIdles(x, i);
      NothingLeaves(x.end);
      NothingLeaves(y.end);
      IdleTalks(s, Act(s, a), offer, offer');
  }

  lemma GiveIdles(x: Half, bytes: Octets)
    ensures Leaves(x.end, GiveTo(x, bytes).end, x.end.state, x.end.urgent) && GiveTo(x, bytes).out == x.out
  {
  }

  lemma TakeIdles(x: Half)
    ensures Leaves(x.end, TakeFrom(x).end, x.end.state, x.end.urgent) && TakeFrom(x).out == x.out
  {
  }

  lemma LoseIdles(x: Half, i: nat)
    ensures forall j :: 0 <= j < |Without(x.out, i)| ==> Without(x.out, i)[j] in x.out
  {
  }

  lemma JoinedBothWays(x: Half, y: Half)
    requires Joined(x, y)
    ensures Joined(y, x)
  {
    hide EndOk, Carried;
  }

  lemma CalledActs(s: Pair, a: Action, offer: Option<Directions>, offer': Option<Directions>)
    requires ValidOffer(offer) && ValidOffer(offer') && SystemOk(s, offer, offer') && a.side.Called?
    ensures SystemOk(Act(s, a), offer, offer')
  {
    hide Joined, Talking, Leaves, TransmitFrom, ArriveAt, Without, GiveTo, TakeFrom;
    var x, y := s.called, s.caller;
    JoinedBothWays(y, x);
    match a
    case Give(_, bytes) =>
      GiveKeeps(x, y, bytes);
      GiveIdles(x, bytes);
      NothingLeaves(y.end);
      IdleTalks(s, Act(s, a), offer, offer');
      JoinedBothWays(GiveTo(x, bytes), y);
    case Take(_) =>
      TakeKeeps(x, y);
      TakeIdles(x);
      NothingLeaves(y.end);
      IdleTalks(s, Act(s, a), offer, offer');
      JoinedBothWays(TakeFrom(x), y);
    case Transmit(_, now) =>
      CalledTransmits(s, offer, offer', now);
      TransmitKeeps(x, y, now);
      JoinedBothWays(TransmitFrom(x, now), y);
    case Arrive(_, now) =>
      if y.out != [] {
        CalledArrives(s, offer, offer', now);
        ArriveKeeps(x, y, now);
        JoinedBothWays(ArriveAt(x, y.out[0], now), y.(out := y.out[1..]));
      }
    case Lose(_, i) =>
      LosesKeep(x, y, i);
      LoseIdles(x, i);
      NothingLeaves(x.end);
      NothingLeaves(y.end);
      IdleTalks(s, Act(s, a), offer, offer');
      JoinedBothWays(x.(out := Without(x.out, i)), y);
  }

  lemma {:induction false} RunOk(s: Pair, actions: seq<Action>, offer: Option<Directions>, offer': Option<Directions>)
    requires ValidOffer(offer) && ValidOffer(offer') && SystemOk(s, offer, offer')
    ensures SystemOk(Run(s, actions), offer, offer')
    decreases |actions|
  {
    hide SystemOk, Act;
    if actions != [] {
      if actions[0].side.Caller? {
        CallerActs(s, actions[0], offer, offer');
      } else {
        CalledActs(s, actions[0], offer, offer');
      }
      RunOk(Act(s, actions[0]), actions[1..], offer, offer');
    }
  }

  /** A pair of ends that a run of theirs can lead to, from any timers, deadlines and valid offers. */
  ghost predicate Reachable(s: Pair, offer: Option<Directions>, offer': Option<Directions>) {
    exists t401: nat, t401': nat, now: int, actions: seq<Action> ::
      s == Run(Start(t401, offer, t401', now, offer'), actions)
  }

  lemma ReachableOk(s: Pair, offer: Option<Directions>, offer': Option<Directions>)
    requires ValidOffer(offer) && ValidOffer(offer') && Reachable(s, offer, offer')
    ensures SystemOk(s, offer, offer')
  {
    hide SystemOk, Run, Start;
    var t401: nat, t401': nat, now: int, actions: seq<Action> :|
      s == Run(Start(t401, offer, t401', now, offer'), actions);
    StartOk(t401, offer, t401', now, offer');
    RunOk(Start(t401, offer, t401', now, offer'), actions, offer, offer');
  }

  lemma {:induction false} FlattenPrefix(log: seq<Octets>, n: nat)
    requires n <= |log|
    ensures Flatten(log[..n]) <= Flatten(log)
  {
    FlattenAppends(log[..n], log[n..]);
    assert log == log[..n] + log[n..];
  }

  /**
   * Whatever is lost, resent, polled for, given up or negotiated, each end has for its DTE a prefix of what the
   * other end was given: nothing missing, doubled or out of place, though N(S) wraps around.
   */
  lemma DeliversInOrder(s: Pair, offer: Option<Directions>, offer': Option<Directions>)
    requires ValidOffer(offer) && ValidOffer(offer') && Reachable(s, offer, offer')
    ensures Delivered(s.called) <= s.caller.given
    ensures Delivered(s.caller) <= s.called.given
  {
    hide Reachable, Talking, Flatten, DataFlies, AcksFly;
    ReachableOk(s, offer, offer');
    var a, b := s.caller, s.called;
    FlattenPrefix(a.log, b.heard);
    FlattenPrefix(b.log, a.heard);
  }

  /** The window of an end, and any N(R) on its way to it. */
  ghost predicate WindowOk(x: Half, y: Half) {
    && |x.end.sent| <= 127
    && (!x.end.state.Released? ==> Lapm.After(x.end.vs, x.end.va) <= |x.end.sent|)
    && (forall i :: 0 <= i < |y.out| && !x.end.state.Released? && !y.out[i].frame.control.U? ==>
      Lapm.After(y.out[i].frame.control.nr, x.end.va) <= |x.end.sent|)
  }

  lemma JoinedWindow(x: Half, y: Half)
    requires Joined(x, y)
    ensures WindowOk(x, y)
  {
    hide Flatten, DataFlies;
    if !x.end.state.Released? {
      forall i | 0 <= i < |y.out| && !y.out[i].frame.control.U?
        ensures Lapm.After(y.out[i].frame.control.nr, x.end.va) <= |x.end.sent|
      {
        assert Awaits(y.out[i]);
        AfterExact(y.out[i].nr, Acked(x));
      }
    }
  }

  /** No end ever takes an N(R) for invalid: each on its way acknowledges frames that are sent and no more than 127. */
  lemma EveryNrIsValid(s: Pair, offer: Option<Directions>, offer': Option<Directions>)
    requires ValidOffer(offer) && ValidOffer(offer') && Reachable(s, offer, offer')
    ensures WindowOk(s.caller, s.called) && WindowOk(s.called, s.caller)
  {
    hide Reachable, Talking, Joined, WindowOk;
    ReachableOk(s, offer, offer');
    JoinedBothWays(s.caller, s.called);
    JoinedWindow(s.caller, s.called);
    JoinedWindow(s.called, s.caller);
  }

  /** Once both ends are connected they run V.42 bis alike, in mirrored directions that both offered, or not at all. */
  lemma NegotiatesAlike(s: Pair, offer: Option<Directions>, offer': Option<Directions>)
    requires ValidOffer(offer) && ValidOffer(offer') && Reachable(s, offer, offer')
    requires s.caller.end.state.Connected? && s.called.end.state.Connected?
    ensures s.caller.end.compression == Agreement(offer, offer')
    ensures s.called.end.compression == Mirrored(s.caller.end.compression)
  {
    hide Reachable, Joined, CallerFrames, CalledFrames, Agreement;
    ReachableOk(s, offer, offer');
  }

  // Why a connection is released.

  lemma NumberedHolds(y: Half, x: Half, p: Packet, command: bool, now: int)
    requires Plain(p.frame) && y.end.state.Connected? && Ahead(p, y, x) && Joined(y, x)
    ensures ReceiveNumbered(y.end, p.frame, command, now).state.Connected?
  {
    hide Joined, Acknowledge, Carries, EndOk;
    ConnectedKnows(y);
    var nr := if p.frame.control.I? then p.frame.control.nr else p.frame.control.nr;
    AcknowledgeKeeps(y, x, p.nr, nr, now);
  }

  lemma HeadIsAhead(y: Half, x: Half)
    requires x.out != [] && Joined(y, x)
    ensures Ahead(x.out[0], y, x.(out := x.out[1..])) && Joined(y, x.(out := x.out[1..]))
  {
    hide EndOk, Carries, Awaits, Flatten;
    assert x.out[1..] == Without(x.out, 0);
    SymmetricLoss(y, x);
  }

  lemma ExpiredAhead(y: Half, x: Half, p: Packet, now: int)
    requires Ahead(p, y, x) && Joined(y, x)
    ensures var y1 := y.(end := Expire(y.end, now)); Ahead(p, y1, x) && Joined(y1, x)
  {
    hide Joined, Ahead, Calm, Expire;
    JoinedSound(y, x);
    ExpireCalm(y.end, now);
    CalmKeeps(y, x, Expire(y.end, now));
    AheadAnyway(p, y, Expire(y.end, now), x);
  }

  /** No frame from the called end releases a caller that is connected: only its own patience does. */
  lemma CallerHoldsOn(s: Pair, offer: Option<Directions>, offer': Option<Directions>, now: int)
    requires ValidOffer(offer) && ValidOffer(offer') && Reachable(s, offer, offer') && s.called.out != []
    requires Expire(s.caller.end, now).state.Connected?
    ensures ArriveAt(s.caller, s.called.out[0], now).end.state.Connected?
  {
    hide Reachable, Joined, Talking, Ahead, Plain, Expire, Bytes, Parse, ReceiveNumbered, XidField.Bytes;
    ReachableOk(s, offer, offer');
    var p := s.called.out[0];
    CallerPops(s, offer, offer');
    CalledFrameWellFormed(
      p.frame, Reply(offer, offer'), s.caller.end.state.Negotiating?, HasSettled(s.called.end, offer, offer'));
    ParsesBytes(p.frame);
    var e := Expire(s.caller.end, now);
    NotEstablishing(s, offer, offer');
    ExpireLeaves(s.caller.end, now);
    PlainNumbered(p.frame);
    if !p.frame.control.U? {
      HeadIsAhead(s.caller, s.called);
      ExpiredAhead(s.caller, s.called.(out := s.called.out[1..]), p, now);
      NumberedHolds(s.caller.(end := e), s.called.(out := s.called.out[1..]), p, p.frame.cr == !e.originate, now);
    }
  }

  lemma PlainNumbered(f: Frame)
    ensures Plain(f) ==> !f.control.U?
  {
  }

  /** A frame from the caller releases a connected called end exactly when it is a SABME and data has passed. */
  lemma CalledHoldsOn(s: Pair, offer: Option<Directions>, offer': Option<Directions>, now: int)
    requires ValidOffer(offer) && ValidOffer(offer') && Reachable(s, offer, offer') && s.caller.out != []
    requires Expire(s.called.end, now).state.Connected?
    ensures var e := Expire(s.called.end, now);
      var untouched := e.vs == e.va == e.vr == 0 && e.sent == [];
      ArriveAt(s.called, s.caller.out[0], now).end.state ==
        if s.caller.out[0].frame.control == U(Sabme, true) && !untouched then Released else Connected
  {
    hide Reachable, Joined, Talking, Ahead, Plain, Expire, Bytes, Parse, ReceiveNumbered, XidCommand, XidField.Bytes;
    ReachableOk(s, offer, offer');
    JoinedBothWays(s.caller, s.called);
    var p := s.caller.out[0];
    CalledPops(s, offer, offer');
    CallerFrameWellFormed(p.frame, offer, s.caller.end.state.Negotiating?, HasSettled(s.called.end, offer, offer'));
    ParsesBytes(p.frame);
    var e := Expire(s.called.end, now);
    NotEstablishing(s, offer, offer');
    ExpireLeaves(s.called.end, now);
    PlainNumbered(p.frame);
    if !p.frame.control.U? {
      HeadIsAhead(s.called, s.caller);
      ExpiredAhead(s.called, s.caller.(out := s.caller.out[1..]), p, now);
      NumberedHolds(s.called.(end := e), s.caller.(out := s.caller.out[1..]), p, p.frame.cr == !e.originate, now);
    } else if p.frame.control.command == Xid {
      CalledExpires(s, offer, offer', now);
      TalkingCalled(s.(called := s.called.(end := e)), offer, offer');
      XidCommandSettles(e, offer, offer');
    }
  }
}
