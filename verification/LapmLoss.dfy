/** After frames were lost: from any run's state, two connected ends deliver all that they were given. */
module LapmLoss {
  import opened Prelude
  import opened LapmFrame
  import opened Lapm
  import opened LapmPair
  import opened LapmRun
  import opened LapmSettled
  import opened LapmProgress
  import opened LapmRecovery
  import opened Negotiation
  import XidField
  import T = LapmTimers

  // What holds of every run besides.

  predicate Untimed(e: End) {
    forall i :: 0 <= i < |e.urgent| ==> !e.urgent[i].1
  }

  /** The end neither negotiates nor establishes, and what is urgent starts no timer. */
  predicate AnswersOnly(e: End) {
    !e.state.Negotiating? && !e.state.Establishing? && Untimed(e)
  }

  predicate Ends(f: Frame) {
    f.control.S? ==> f.control.kind != Rnr
  }

  ghost predicate Healthy(s: Pair) {
    && T.Watched(s.caller.end) && T.Watched(s.called.end)
    && !s.caller.end.peerBusy && !s.called.end.peerBusy
    && AnswersOnly(s.called.end)
  }

  lemma ExpireNotBusy(e: End, now: int)
    ensures Expire(e, now).peerBusy == e.peerBusy
  {
    hide UnnumberedFrame, XidField.Bytes, OwnXid;
  }

  lemma NextNotBusy(e: End, now: int)
    ensures NextFrame(e, now).0.peerBusy == e.peerBusy
  {
    hide Expire;
    ExpireNotBusy(e, now);
  }

  lemma PartsNotBusy(e: End, ns: Seven, nr: Seven, poll: bool, info: Octets, now: int)
    ensures Acknowledge(e, nr, now).0.peerBusy == e.peerBusy
    ensures Informed(e, ns, poll, info).peerBusy == e.peerBusy
    ensures Release(e).peerBusy == e.peerBusy && !Connect(e).peerBusy
  {
  }

  lemma SupervisedNotBusy(e: End, kind: Supervisory, nr: Seven, pf: bool, command: bool, now: int)
    requires kind != Rnr && !e.peerBusy
    ensures !Supervised(e, kind, nr, pf, command, now).peerBusy
  {
  }

  lemma NumberedNotBusy(e: End, f: Frame, command: bool, now: int)
    requires !f.control.U? && Ends(f) && !e.peerBusy
    ensures !ReceiveNumbered(e, f, command, now).peerBusy
  {
    hide Acknowledge, Informed, Supervised, Connect, Release;
    PartsNotBusy(e, 0, 0, false, [], now);
    var e1 := if e.state.Establishing? then Connect(e) else e;
    PartsNotBusy(e1, 0, f.control.nr, false, f.info, now);
    var e2 := Acknowledge(e1, f.control.nr, now).0;
    match f.control
    case I(ns, nr, poll) => PartsNotBusy(e2, ns, nr, poll, f.info, now);
    case S(kind, nr, pf) =>
      PartsNotBusy(e2, 0, nr, pf, [], now);
      SupervisedNotBusy(e2, kind, nr, pf, command, now);
  }

  lemma XidNotBusy(e: End, info: Octets)
    requires !e.peerBusy
    ensures !XidCommand(e, info).peerBusy && !XidResponse(e, info).peerBusy
  {
    hide XidField.Parse, XidField.Bytes, Agree, Conclude, N401Of, KOf, UnnumberedFrame;
    var parsed := XidField.Parse(info);
    if parsed.Some? {
      AgreeTweaks(e, parsed.value);
    }
  }

  lemma BreakNotBusy(e: End, pf: bool, info: Octets)
    requires !e.peerBusy
    ensures !BreakSignal(e, pf, info).peerBusy
  {
    hide UnnumberedFrame;
  }

  lemma RespondNotBusy(e: End, kind: Unnumbered, pf: bool, info: Octets)
    ensures Respond(e, kind, pf, info).peerBusy == e.peerBusy
  {
    hide UnnumberedFrame;
  }

  lemma UnnumberedNotBusy(e: End, kind: Unnumbered, pf: bool, command: bool, info: Octets)
    requires !e.peerBusy
    ensures !ReceiveUnnumbered(e, kind, pf, command, info).peerBusy
  {
    hide XidCommand, XidResponse, BreakSignal, Connect, Release, Respond;
    XidNotBusy(e, info);
    BreakNotBusy(e, pf, info);
    PartsNotBusy(e, 0, 0, pf, info, 0);
    RespondNotBusy(Connect(e), Ua, pf, []);
    RespondNotBusy(e, Ua, pf, []);
    RespondNotBusy(e, Dm, pf, []);
    PartsNotBusy(Respond(e, Ua, pf, []), 0, 0, pf, info, 0);
  }

  /** Only an RNR makes an end hold its data back. */
  lemma ReceiveNotBusy(e: End, f: Frame, now: int)
    requires WellFormed(f) && Ends(f) && !e.peerBusy
    ensures !Receive(e, Bytes(f), now).peerBusy
  {
    hide Expire, ReceiveNumbered, ReceiveUnnumbered, Parse, Bytes, Ends;
    ParsesBytes(f);
    ExpireNotBusy(e, now);
    var e1 := Expire(e, now);
    var command := f.cr == !e1.originate;
    if f.control.U? {
      UnnumberedNotBusy(e1, f.control.command, f.control.pf, command, f.info);
    } else {
      NumberedNotBusy(e1, f, command, now);
    }
  }

  lemma ExpireAnswers(e: End, now: int)
    requires AnswersOnly(e)
    ensures AnswersOnly(Expire(e, now))
  {
    hide Expire, SameTerms;
    ExpireLeaves(e, now);
  }

  lemma NextAnswers(e: End, now: int)
    requires AnswersOnly(e)
    ensures AnswersOnly(NextFrame(e, now).0)
  {
    hide Expire, NextFrame, SameTerms, Plain;
    ExpireAnswers(e, now);
    NextLeaves(e, now);
    FewerAnswer(Expire(e, now), NextFrame(e, now).0);
  }

  lemma FewerAnswer(e: End, e': End)
    requires AnswersOnly(e) && e'.state == e.state
    requires e'.urgent == e.urgent || (e.urgent != [] && e'.urgent == e.urgent[1..])
    ensures AnswersOnly(e')
  {
  }

  lemma RespondAnswers(e: End, kind: Unnumbered, pf: bool, info: Octets)
    requires AnswersOnly(e)
    ensures AnswersOnly(Respond(e, kind, pf, info))
  {
    hide UnnumberedFrame;
  }

  lemma XidCommandAnswers(e: End, info: Octets)
    requires AnswersOnly(e)
    ensures AnswersOnly(XidCommand(e, info))
  {
    hide XidField.Parse, XidField.Bytes, Agree, Respond, Release;
    ReleaseAnswers(e);
    match XidField.Parse(info)
    case None =>
    case Some(theirs) =>
      AgreeTweaks(e, theirs);
      match Agree(e, theirs)
      case None =>
      case Some((e1, ours)) => RespondAnswers(e1, Xid, false, XidField.Bytes(ours));
  }

  lemma BreakAnswers(e: End, pf: bool, info: Octets)
    requires AnswersOnly(e)
    ensures AnswersOnly(BreakSignal(e, pf, info))
  {
    hide UnnumberedFrame;
  }

  lemma ConnectAnswersOnly(e: End)
    requires AnswersOnly(e)
    ensures AnswersOnly(Connect(e))
  {
  }

  lemma UnnumberedAnswers(e: End, kind: Unnumbered, pf: bool, command: bool, info: Octets)
    requires AnswersOnly(e)
    ensures AnswersOnly(ReceiveUnnumbered(e, kind, pf, command, info))
  {
    hide XidCommand, XidResponse, BreakSignal, Connect, Release, Respond, Untimed;
    XidCommandAnswers(e, info);
    BreakAnswers(e, pf, info);
    ConnectAnswersOnly(e);
    RespondAnswers(Connect(e), Ua, pf, []);
    RespondAnswers(e, Ua, pf, []);
    RespondAnswers(e, Dm, pf, []);
    ReleaseAnswers(e);
    ReleaseAnswers(Respond(e, Ua, pf, []));
  }

  lemma NumberedAnswers(e: End, f: Frame, command: bool, now: int)
    requires !f.control.U? && AnswersOnly(e)
    ensures AnswersOnly(ReceiveNumbered(e, f, command, now))
  {
    hide ReceiveNumbered, SameTerms;
    NumberedLeaves(e, f, command, now);
  }

  lemma ReceiveAnswers(e: End, bytes: Octets, now: int)
    requires AnswersOnly(e)
    ensures AnswersOnly(Receive(e, bytes, now))
  {
    hide Expire, ReceiveNumbered, ReceiveUnnumbered, Parse, AnswersOnly;
    ExpireAnswers(e, now);
    var e1 := Expire(e, now);
    ReleaseAnswers(e1);
    match Parse(bytes)
    case Ok(f) =>
      var command := f.cr == !e1.originate;
      if f.control.U? {
        UnnumberedAnswers(e1, f.control.command, f.control.pf, command, f.info);
      } else {
        NumberedAnswers(e1, f, command, now);
      }
    case _ =>
  }

  lemma ReleaseAnswers(e: End)
    requires AnswersOnly(e)
    ensures AnswersOnly(Release(e))
  {
  }

  lemma CallerArrivalEnds(s: Pair, offer: Option<Directions>, offer': Option<Directions>)
    requires SystemOk(s, offer, offer') && s.called.out != []
    ensures WellFormed(s.called.out[0].frame) && Ends(s.called.out[0].frame)
  {
    hide Joined, Talking, XidField.Bytes;
    CallerPops(s, offer, offer');
    CalledFrameWellFormed(s.called.out[0].frame, Reply(offer, offer'), s.caller.end.state.Negotiating?,
      HasSettled(s.called.end, offer, offer'));
  }

  lemma CalledArrivalEnds(s: Pair, offer: Option<Directions>, offer': Option<Directions>)
    requires SystemOk(s, offer, offer') && s.caller.out != []
    ensures WellFormed(s.caller.out[0].frame) && Ends(s.caller.out[0].frame)
  {
    hide Joined, Talking, XidField.Bytes;
    CalledPops(s, offer, offer');
    CallerFrameWellFormed(s.caller.out[0].frame, offer, s.caller.end.state.Negotiating?,
      HasSettled(s.called.end, offer, offer'));
  }

  lemma GivenHealthy(e: End, bytes: Octets)
    requires T.Watched(e) && !e.peerBusy
    ensures var e' := Send(e, bytes);
      T.Watched(e') && !e'.peerBusy && (AnswersOnly(e) ==> AnswersOnly(e'))
    ensures var e' := e.(received := []);
      T.Watched(e') && !e'.peerBusy && (AnswersOnly(e) ==> AnswersOnly(e'))
  {
    hide T.Timed;
  }

  lemma ActHealthy(s: Pair, a: Action, offer: Option<Directions>, offer': Option<Directions>)
    requires SystemOk(s, offer, offer') && Healthy(s)
    ensures Healthy(Act(s, a))
  {
    hide SystemOk, T.Watched, AnswersOnly, NextFrame, Receive, Expire, Bytes, Send, Ends;
    var x, y := At(s, a.side), At(s, Other(a.side));
    match a
    case Give(_, bytes) => GivenHealthy(x.end, bytes);
    case Take(_) => GivenHealthy(x.end, []);
    case Transmit(_, now) =>
      T.NextWatched(x.end, now);
      NextNotBusy(x.end, now);
      if a.side.Called? {
        NextAnswers(x.end, now);
      }
    case Arrive(_, now) =>
      if y.out != [] {
        T.ReceiveWatched(x.end, Bytes(y.out[0].frame), now);
        if a.side.Called? {
          CalledArrivalEnds(s, offer, offer');
          ReceiveAnswers(x.end, Bytes(y.out[0].frame), now);
        } else {
          CallerArrivalEnds(s, offer, offer');
        }
        ReceiveNotBusy(x.end, y.out[0].frame, now);
      }
    case Lose(_, i) =>
  }

  lemma {:induction false} RunHealthy(
      s: Pair, actions: seq<Action>, offer: Option<Directions>, offer': Option<Directions>)
    requires ValidOffer(offer) && ValidOffer(offer') && SystemOk(s, offer, offer') && Healthy(s)
    ensures Healthy(Run(s, actions))
    decreases |actions|
  {
    hide SystemOk, Act, Healthy;
    if actions != [] {
      ActHealthy(s, actions[0], offer, offer');
      RunOk(s, [actions[0]], offer, offer');
      assert [actions[0]][1..] == [];
      NothingRuns(Act(s, actions[0]));
      RunHealthy(Act(s, actions[0]), actions[1..], offer, offer');
    }
  }

  lemma StartHealthy(t401: nat, offer: Option<Directions>, t401': nat, now: int, offer': Option<Directions>)
    ensures Healthy(Start(t401, offer, t401', now, offer'))
  {
    hide T.Watched, XidField.Bytes, OwnXid;
    T.StartsWatched(t401, now, offer);
    T.StartsWatched(t401', now, offer');
  }

  lemma ReachableHealthy(s: Pair, offer: Option<Directions>, offer': Option<Directions>)
    requires ValidOffer(offer) && ValidOffer(offer') && Reachable(s, offer, offer')
    ensures Healthy(s) && SystemOk(s, offer, offer')
  {
    hide SystemOk, Run, Start, Healthy;
    var t401: nat, t401': nat, now: int, actions: seq<Action> :|
      s == Run(Start(t401, offer, t401', now, offer'), actions);
    StartOk(t401, offer, t401', now, offer');
    StartHealthy(t401, offer, t401', now, offer');
    RunOk(Start(t401, offer, t401', now, offer'), actions, offer, offer');
    RunHealthy(Start(t401, offer, t401', now, offer'), actions, offer, offer');
  }

  // What was urgent when the frames were lost.

  /** The end with a timed frame gone perhaps, before T401 runs out. */
  predicate Flushing(e: End, now: int) {
    && Able(e) && (e.timer.None? || e.timer == Some(now + e.t401))
    && if e.recovery then e.owed.poll else e.vs == e.va
  }

  predicate NothingPassed(e: End) {
    e.vs == e.va == e.vr == 0 && e.sent == []
  }

  predicate HasSabme(e: End) {
    exists i :: 0 <= i < |e.urgent| && e.urgent[i].0.control == U(Sabme, true)
  }

  lemma SendsTheUrgent(e: End, now: int)
    requires Running(e, now) && e.urgent != []
    ensures NextFrame(e, now)
      == (e.(urgent := e.urgent[1..], timer := if e.urgent[0].1 then Some(now + e.t401) else e.timer),
        Some(e.urgent[0].0))
  {
    hide NextNumbered, Retry, Recover;
  }

  /** A well-formed unnumbered frame at an end whose T401 has not run out. */
  lemma RunningHearsU(e: End, f: Frame, now: int)
    requires Running(e, now) && f.control.U? && WellFormed(f)
    ensures Receive(e, Bytes(f), now)
      == ReceiveUnnumbered(e, f.control.command, f.control.pf, f.cr == !e.originate, f.info)
  {
    hide ReceiveUnnumbered, Parse, Bytes, Retry, Recover;
    ParsesBytes(f);
  }

  /** A connected caller makes nothing of the called end's urgent frames. */
  lemma CallerIgnores(
      e: End, f: Frame, reply: Option<XidField.Compression>, negotiating: bool, settled: bool, now: int)
    requires Running(e, now) && e.originate && CalledUrgent(f, reply, negotiating, settled)
    ensures Receive(e, Bytes(f), now) == e
  {
    hide Bytes, XidField.Bytes, Receive;
    RunningHearsU(e, f, now);
  }

  lemma XidCommandFirm(e: End, offer: Option<Directions>, offer': Option<Directions>)
    requires ValidOffer(offer) && ValidOffer(offer') && e.offer == offer' && HasSettled(e, offer, offer') && Firm(e)
    ensures var e' := XidCommand(e, XidField.Bytes(OwnXid(offer)));
      && Firm(e') && e'.vs == e.vs && e'.va == e.va && e'.vr == e.vr && e'.sent == e.sent
  {
    hide XidField.Parse, XidField.Bytes, Agree, UnnumberedFrame, HasSettled, OwnXid;
    XidCommandSettles(e, offer, offer');
    var parsed := XidField.Parse(XidField.Bytes(OwnXid(offer)));
    if parsed.Some? {
      AgreeTweaks(e, parsed.value);
    }
  }

  /** A connected called end stays so on the caller's urgent frames, but for a SABME once data has passed. */
  lemma CalledTakes(
      e: End, f: Frame, offer: Option<Directions>, offer': Option<Directions>, negotiating: bool, settled: bool,
      now: int)
    requires ValidOffer(offer) && ValidOffer(offer') && e.offer == offer' && HasSettled(e, offer, offer')
    requires Firm(e) && !e.originate && CallerUrgent(f, offer, negotiating, settled)
    requires f.control == U(Sabme, true) ==> NothingPassed(e)
    ensures var e' := Receive(e, Bytes(f), now);
      && Firm(e') && e'.vs == e.vs && e'.va == e.va && e'.vr == e.vr && e'.sent == e.sent
  {
    hide Bytes, XidField.Bytes, Receive, XidCommand, HasSettled;
    RunningHearsU(e, f, now);
    if f.control.command == Xid {
      XidCommandFirm(e, offer, offer');
    }
  }

  // Nothing urgent is left.

  lemma CalledFramesAre(s: Pair, now: int, offer: Option<Directions>, offer': Option<Directions>)
    requires Clear(s, offer, offer') && Seen(s, Caller, now).state.Connected? && Seen(s, Called, now).state.Connected?
    requires Seen(s, Called, now).urgent != []
    ensures CalledUrgent(Seen(s, Called, now).urgent[0].0, Reply(offer, offer'), false, true)
    ensures Seen(s, Caller, now).originate
  {
    hide Joined, Expire, XidField.Bytes, Reply, Agreement, Mirrored, CallerFrames, CalledUrgent;
    SeenIs(s.caller.end, now);
    SeenIs(s.called.end, now);
    assert CalledUrgent(s.called.end.urgent[0].0, Reply(offer, offer'), false, true);
  }

  lemma CallerFramesAre(s: Pair, now: int, offer: Option<Directions>, offer': Option<Directions>)
    requires Clear(s, offer, offer') && Seen(s, Caller, now).state.Connected? && Seen(s, Called, now).state.Connected?
    requires Seen(s, Caller, now).urgent != []
    ensures CallerUrgent(Seen(s, Caller, now).urgent[0].0, offer, false, true)
    ensures var y := Seen(s, Called, now); !y.originate && y.offer == offer' && HasSettled(y, offer, offer')
  {
    hide Joined, Expire, XidField.Bytes, Reply, Agreement, Mirrored, CalledFrames, CallerUrgent, HasSettled;
    SeenIs(s.caller.end, now);
    SeenIs(s.called.end, now);
    ExpireLeaves(s.called.end, now);
    SettledThroughExpiry(s.called.end, offer, offer', now);
    assert CallerUrgent(s.caller.end.urgent[0].0, offer, false, true);
  }

  lemma FlushingRuns(e: End, now: int)
    requires Flushing(e, now)
    ensures Running(e, now)
    ensures e.urgent != [] ==>
      Flushing(e.(urgent := e.urgent[1..], timer := if e.urgent[0].1 then Some(now + e.t401) else e.timer), now)
  {
  }

  lemma FirmRuns(e: End, now: int)
    requires Firm(e)
    ensures Running(e, now) && Flushing(e, now)
  {
  }

  lemma FewerSabmes(e: End, e': End)
    requires e.urgent != [] && e'.urgent == e.urgent[1..]
    ensures e.urgent[0].0.control == U(Sabme, true) ==> HasSabme(e)
    ensures HasSabme(e') ==> HasSabme(e)
  {
    if HasSabme(e') {
      var i :| 0 <= i < |e'.urgent| && e'.urgent[i].0.control == U(Sabme, true);
      assert e.urgent[i + 1].0.control == U(Sabme, true);
    }
  }

  lemma UntouchedSame(e: End, e': End)
    requires e'.vs == e.vs && e'.va == e.va && e'.vr == e.vr && e'.sent == e.sent
    ensures NothingPassed(e') == NothingPassed(e)
  {
  }

  /** The caller gets its urgent frames across, which the called end answers where they ask. */
  lemma FlushesCaller(s: Pair, now: int, offer: Option<Directions>, offer': Option<Directions>)
    returns (s': Pair)
    requires ValidOffer(offer) && ValidOffer(offer') && Clear(s, offer, offer')
    requires Flushing(Seen(s, Caller, now), now) && Firm(Seen(s, Called, now))
    requires HasSabme(Seen(s, Caller, now)) ==> NothingPassed(Seen(s, Called, now))
    ensures Clear(s', offer, offer') && Leads(s, now, s', now)
    ensures Flushing(Seen(s', Caller, now), now) && Firm(Seen(s', Called, now)) && Seen(s', Caller, now).urgent == []
    decreases |Seen(s, Caller, now).urgent|
  {
    hide Clear, Flushing, Firm, Running, Expire, NextFrame, Receive, Bytes, Turned, Leads, HasSabme, NothingPassed,
      CallerUrgent, HasSettled;
    var x, y := Seen(s, Caller, now), Seen(s, Called, now);
    FlushingRuns(x, now);
    FirmRuns(y, now);
    if x.urgent == [] {
      s' := s;
      Waits(s, now, now);
    } else {
      var s1 := FlushesOne(s, now, offer, offer');
      s' := FlushesCaller(s1, now, offer, offer');
      LeadsOn(s, now, s1, now, s', now);
    }
  }

  lemma FlushesOne(s: Pair, now: int, offer: Option<Directions>, offer': Option<Directions>)
    returns (s': Pair)
    requires ValidOffer(offer) && ValidOffer(offer') && Clear(s, offer, offer')
    requires Flushing(Seen(s, Caller, now), now) && Firm(Seen(s, Called, now))
    requires HasSabme(Seen(s, Caller, now)) ==> NothingPassed(Seen(s, Called, now))
    requires Seen(s, Caller, now).urgent != []
    ensures Clear(s', offer, offer') && Leads(s, now, s', now)
    ensures Flushing(Seen(s', Caller, now), now) && Firm(Seen(s', Called, now))
    ensures HasSabme(Seen(s', Caller, now)) ==> NothingPassed(Seen(s', Called, now))
    ensures Seen(s', Caller, now).urgent == Seen(s, Caller, now).urgent[1..]
  {
    hide Clear, Flushing, Firm, Running, Expire, NextFrame, Receive, Bytes, Turned, Leads, HasSabme, NothingPassed,
      CallerUrgent, HasSettled;
    var x, y := Seen(s, Caller, now), Seen(s, Called, now);
    FlushingRuns(x, now);
    FirmRuns(y, now);
    RunningConnected(x, now);
    RunningConnected(y, now);
    CallerFramesAre(s, now, offer, offer');
    SendsTheUrgent(x, now);
    Crosses(s, Caller, now, offer, offer');
    s' := Turned(s, Caller, now);
    var x', y' := At(s', Caller).end, At(s', Called).end;
    FewerSabmes(x, x');
    CalledTakes(y, x.urgent[0].0, offer, offer', false, true, now);
    UntouchedSame(y, y');
    FlushingRuns(x', now);
    RunningStays(x', now);
    FirmRuns(y', now);
    RunningStays(y', now);
  }

  lemma RunningConnected(e: End, now: int)
    requires Running(e, now)
    ensures e.state.Connected?
  {
  }

  /** So does the called end, and the caller makes nothing of them. */
  lemma FlushesCalled(s: Pair, now: int, offer: Option<Directions>, offer': Option<Directions>)
    returns (s': Pair)
    requires ValidOffer(offer) && ValidOffer(offer') && Clear(s, offer, offer')
    requires Running(Seen(s, Caller, now), now) && Firm(Seen(s, Called, now)) && Untimed(Seen(s, Called, now))
    ensures Clear(s', offer, offer') && Leads(s, now, s', now)
    ensures Seen(s', Caller, now) == Seen(s, Caller, now)
    ensures Firm(Seen(s', Called, now)) && Seen(s', Called, now).urgent == []
    decreases |Seen(s, Called, now).urgent|
  {
    hide Clear, Firm, Running, Expire, NextFrame, Receive, Bytes, Turned, Leads, CalledUrgent;
    var x, y := Seen(s, Caller, now), Seen(s, Called, now);
    FirmRuns(y, now);
    RunningConnected(x, now);
    RunningConnected(y, now);
    if y.urgent == [] {
      s' := s;
      Waits(s, now, now);
    } else {
      CalledFramesAre(s, now, offer, offer');
      SendsTheUrgent(y, now);
      Crosses(s, Called, now, offer, offer');
      CallerIgnores(x, y.urgent[0].0, Reply(offer, offer'), false, true, now);
      var s1 := Turned(s, Called, now);
      RunningStays(x, now);
      StaysFirm(y);
      FirmRuns(At(s1, Called).end, now);
      RunningStays(At(s1, Called).end, now);
      s' := FlushesCalled(s1, now, offer, offer');
      LeadsOn(s, now, s1, now, s', now);
    }
  }

  lemma StaysFirm(e: End)
    requires Firm(e) && Untimed(e) && e.urgent != []
    ensures var e' := e.(urgent := e.urgent[1..], timer := if e.urgent[0].1 then e.timer else e.timer);
      Firm(e') && Untimed(e') && !e.urgent[0].1
  {
  }

  // Everything is delivered.

  /** T401 has run out once at most, and the end goes on. */
  lemma WatchedFirm(e: End, now: int)
    requires T.Watched(e) && Able(e) && e.retries + 1 < N400 && (e.timer.Some? ==> e.timer.value <= now)
    ensures Firm(Expire(e, now))
  {
    hide T.Timed, Release;
  }

  lemma LeadsHealthy(s: Pair, from: int, s': Pair, to: int, offer: Option<Directions>, offer': Option<Directions>)
    requires ValidOffer(offer) && ValidOffer(offer') && SystemOk(s, offer, offer') && Healthy(s)
    requires Leads(s, from, s', to)
    ensures Healthy(s')
  {
    hide Onwards, Run, SystemOk, Healthy;
    var actions: seq<Action> :| Onwards(actions, from, to) && Run(s, actions) == s';
    RunHealthy(s, actions, offer, offer');
  }

  lemma UntimedSeen(s: Pair, now: int)
    requires Healthy(s) && Seen(s, Called, now).state.Connected?
    ensures Untimed(Seen(s, Called, now))
  {
    hide Expire, T.Watched;
    SeenIs(s.called.end, now);
  }

  /** With the urgent frames gone, the caller recovers at once, or else T401 puts it to rest. */
  lemma Settles(s: Pair, now: int, offer: Option<Directions>, offer': Option<Directions>)
    returns (s': Pair, later: int)
    requires ValidOffer(offer) && ValidOffer(offer') && Clear(s, offer, offer')
    requires Flushing(Seen(s, Caller, now), now) && Firm(Seen(s, Called, now))
    requires Seen(s, Caller, now).urgent == [] && Seen(s, Called, now).urgent == []
    ensures Rested(s', later, offer, offer') && Leads(s, now, s', later)
  {
    hide Clear, Flushing, Asking, Firm, Expire, Leads, Answered, Linked;
    var x, y := Seen(s, Caller, now), Seen(s, Called, now);
    if x.recovery {
      later := now;
      FlushedAsks(x, now);
      s' := Recovers(s, Caller, now, offer, offer');
      AnsweredFirm(x, y, At(s', Caller).end, At(s', Called).end, now);
    } else {
      s' := s;
      later := now + x.t401;
      FlushedRests(s.caller.end, now);
      FirmLater(s.called.end, now, later);
      Waits(s, now, later);
    }
    Both(s', Caller, later, offer, offer');
  }

  lemma FlushedAsks(e: End, now: int)
    requires Flushing(e, now) && e.recovery
    ensures Asking(e, now)
  {
  }

  lemma AnsweredFirm(x: End, y: End, x': End, y': End, now: int)
    requires Linked(x, y.vr) && Answered(x, y, x', y')
    ensures Firm(x') && Firm(y') && Expire(x', now) == x' && Expire(y', now) == y'
    ensures x'.urgent == x.urgent && y'.urgent == y.urgent
  {
    FirmSeen(x', now);
    FirmSeen(y', now);
  }

  lemma FlushedRests(e0: End, now: int)
    requires var e := Expire(e0, now); Flushing(e, now) && !e.recovery
    ensures var e := Expire(e0, now + Expire(e0, now).t401);
      Firm(e) && e.urgent == Expire(e0, now).urgent && Expire(e0, now).t401 >= 1
  {
    hide Expire;
    var e := Expire(e0, now);
    SeenIs(e0, now);
    if e.timer.Some? {
      RunsOut(e, now + e.t401);
    } else {
      FirmSeen(e, now + e.t401);
    }
  }

  lemma FirmLater(e: End, now: int, later: int)
    requires Firm(Expire(e, now)) && now <= later
    ensures Expire(e, later) == Expire(e, now)
  {
    hide Retry, Release, T.Timed;
    StateThroughExpiry(e, now);
  }

  /** No SABME is left over from establishment, or the called end has still nothing to lose by it. */
  predicate SafeToSend(s: Pair) {
    HasSabme(s.caller.end) ==> NothingPassed(s.called.end)
  }

  /** A time by which T401 has run out at an end where it is running. */
  function RunOut(e: End, now: int): int {
    if e.timer.Some? && e.timer.value > now then e.timer.value else now
  }

  lemma IsAble(x: Half, y: Half)
    requires Joined(x, y) && x.end.state.Connected? && !x.end.peerBusy && x.end.t401 >= 1
    ensures Able(x.end)
  {
    hide Carried, Flatten;
  }

  /** Once T401 has run out, both ends are at rest but for what is urgent. */
  lemma Rests(s: Pair, now: int, offer: Option<Directions>, offer': Option<Directions>)
    requires Clear(s, offer, offer') && Healthy(s) && BothConnected(s)
    requires s.caller.end.t401 >= 1 && s.called.end.t401 >= 1
    requires s.caller.end.retries + 1 < N400 && s.called.end.retries + 1 < N400
    requires RunOut(s.caller.end, now) == now && RunOut(s.called.end, now) == now
    requires SafeToSend(s)
    ensures Flushing(Seen(s, Caller, now), now) && Firm(Seen(s, Called, now))
    ensures HasSabme(Seen(s, Caller, now)) ==> NothingPassed(Seen(s, Called, now))
  {
    hide Joined, Talking, Expire, Firm, Able, T.Watched, Flushing;
    JoinedBothWays(s.caller, s.called);
    IsAble(s.caller, s.called);
    IsAble(s.called, s.caller);
    WatchedFirm(s.caller.end, now);
    WatchedFirm(s.called.end, now);
    FirmRuns(Seen(s, Caller, now), now);
    FirmIs(Seen(s, Caller, now));
    FirmIs(Seen(s, Called, now));
    SeenIs(s.caller.end, now);
    SeenIs(s.called.end, now);
  }

  /** From a pair at rest, with time going on. */
  lemma DeliversAll(s: Pair, now: int, offer: Option<Directions>, offer': Option<Directions>)
    returns (s': Pair, later: int)
    requires ValidOffer(offer) && ValidOffer(offer') && Rested(s, now, offer, offer')
    ensures Leads(s, now, s', later) && AllDelivered(s')
  {
    hide Rested, Expire, Leads, Done, AllDelivered;
    var s1, t := Drain(s, Caller, now, offer, offer');
    s', later := Drain(s1, Called, t, offer, offer');
    LeadsOn(s, now, s1, t, s', later);
    DoneDelivers(s', later, offer, offer');
  }

  /**
   * Whatever was lost before, two connected ends with nothing on its way can still get everything across: frames are
   * sent and arrive, T401 runs out, and in the end all that either was given is delivered in order and acknowledged.
   */
  lemma DeliversAfterLoss(s: Pair, offer: Option<Directions>, offer': Option<Directions>, now: int)
    returns (s': Pair, later: int)
    requires ValidOffer(offer) && ValidOffer(offer') && Reachable(s, offer, offer')
    requires BothConnected(s) && s.caller.out == [] && s.called.out == []
    requires s.caller.end.t401 >= 1 && s.called.end.t401 >= 1
    requires s.caller.end.retries + 1 < N400 && s.called.end.retries + 1 < N400
    requires SafeToSend(s)
    ensures Leads(s, now, s', later) && AllDelivered(s')
    ensures s'.caller.given == s.caller.given && s'.called.given == s.called.given
  {
    hide Reachable, Healthy, SystemOk, Flushing, Firm, Expire, Leads, HasSabme, NothingPassed, SafeToSend, Rested,
      Untimed,      AllDelivered;
    ReachableHealthy(s, offer, offer');
    var t := RunOut(s.called.end, RunOut(s.caller.end, now));
    Waits(s, now, t);
    Rests(s, t, offer, offer');
    var s1 := FlushesCaller(s, t, offer, offer');
    LeadsHealthy(s, t, s1, t, offer, offer');
    FirmIs(Seen(s1, Called, t));
    UntimedSeen(s1, t);
    FlushingRuns(Seen(s1, Caller, t), t);
    var s2 := FlushesCalled(s1, t, offer, offer');
    var s3, t3 := Settles(s2, t, offer, offer');
    s', later := DeliversAll(s3, t3, offer, offer');
    LeadsOn(s, now, s, t, s1, t);
    LeadsOn(s, now, s1, t, s2, t);
    LeadsOn(s, now, s2, t, s3, t3);
    LeadsOn(s, now, s3, t3, s', later);
    LeadsGiven(s, now, s', later);
  }

  // A SABME left over from establishment.

  /** What the other end is to hear next: what is on its way, and then what is urgent. */
  function Coming(x: Half): seq<Frame> {
    seq(|x.out|, i requires 0 <= i < |x.out| => x.out[i].frame)
      + seq(|x.end.urgent|, i requires 0 <= i < |x.end.urgent| => x.end.urgent[i].0)
  }

  /** A SABME comes before any numbered frame. */
  predicate SabmeFirst(frames: seq<Frame>) {
    && frames != [] && frames[0].control.U?
    && (frames[0].control == U(Sabme, true) || SabmeFirst(frames[1..]))
  }

  lemma {:induction false} SabmeStaysFirst(frames: seq<Frame>, more: seq<Frame>)
    requires SabmeFirst(frames)
    ensures SabmeFirst(frames + more)
  {
    if frames[0].control != U(Sabme, true) {
      SabmeStaysFirst(frames[1..], more);
      assert (frames + more)[1..] == frames[1..] + more;
    }
  }

  lemma {:induction false} UrgentSabmeFirst(frames: seq<Frame>, i: nat)
    requires i < |frames| && frames[i].control == U(Sabme, true) && forall f :: f in frames ==> f.control.U?
    ensures SabmeFirst(frames)
  {
    if i > 0 {
      assert frames[0] in frames && forall f :: f in frames[1..] ==> f in frames;
      UrgentSabmeFirst(frames[1..], i - 1);
    }
  }

  predicate Up(e: End) {
    e.state.Connected? || e.state.Released?
  }

  /** The called end is released, or is about to be: nothing more gets to it. */
  ghost predicate Doomed(s: Pair) {
    && Up(s.caller.end)
    && (s.called.end.state.Released?
      || (s.called.end.state.Connected? && !NothingPassed(s.called.end) && SabmeFirst(Coming(s.caller))))
  }

  lemma UpStays(e: End, now: int)
    requires Up(e)
    ensures var e' := Expire(e, now); Up(e') && e'.urgent == e.urgent && SameTerms(e, e')
  {
    hide Expire;
    ExpireLeaves(e, now);
  }

  lemma ComingSame(x: Half, x': Half)
    requires x'.out == x.out && x'.end.urgent == x.end.urgent
    ensures Coming(x') == Coming(x)
  {
  }

  lemma SendingComes(x: Half, now: int)
    requires Up(x.end)
    ensures var x' := TransmitFrom(x, now);
      && Up(x'.end) && x'.given == x.given
      && (SabmeFirst(Coming(x)) ==> SabmeFirst(Coming(x')))
  {
    hide Expire, NextFrame, TransmitFrom, SameTerms, Plain, SabmeFirst;
    UpStays(x.end, now);
    TransmitMoves(x, now);
    SendsOrNot(x, now);
    var x' := TransmitFrom(x, now);
    if x.end.urgent == [] && x'.out != x.out {
      assert Coming(x') == Coming(x) + [x'.out[|x.out|].frame];
      if SabmeFirst(Coming(x)) {
        SabmeStaysFirst(Coming(x), [x'.out[|x.out|].frame]);
      }
    } else if x.end.urgent != [] {
      UrgentComes(x, x');
    } else {
      ComingSame(x, x');
    }
  }

  lemma SendsOrNot(x: Half, now: int)
    ensures var e, x' := Expire(x.end, now), TransmitFrom(x, now);
      && (e.urgent != [] ==> |x'.out| == |x.out| + 1 && x'.end.urgent == e.urgent[1..])
      && (e.urgent == [] ==> x'.end.urgent == [])
      && x'.given == x.given
  {
    hide Expire, NextFrame, SameTerms, Plain;
    NextLeaves(x.end, now);
  }

  lemma UrgentComes(x: Half, x': Half)
    requires x.end.urgent != [] && x'.end.urgent == x.end.urgent[1..]
    requires |x'.out| == |x.out| + 1 && x'.out[..|x.out|] == x.out && x'.out[|x.out|].frame == x.end.urgent[0].0
    ensures Coming(x') == Coming(x)
  {
    forall i | 0 <= i < |x.out| ensures x'.out[i] == x.out[i] {
      assert x'.out[i] == x'.out[..|x.out|][i];
    }
  }

  /** A caller that has been connected makes no more urgent frames. */
  lemma CallerHears(s: Pair, now: int, offer: Option<Directions>, offer': Option<Directions>)
    requires SystemOk(s, offer, offer') && Up(s.caller.end) && s.called.out != []
    ensures var e := Receive(s.caller.end, Bytes(s.called.out[0].frame), now);
      Up(e) && e.urgent == s.caller.end.urgent
  {
    hide Joined, Talking, Expire, Bytes, Parse, XidField.Bytes, ReceiveNumbered, CalledUrgent, Plain;
    var f := s.called.out[0].frame;
    CallerPops(s, offer, offer');
    CalledFrameWellFormed(
      f, Reply(offer, offer'), s.caller.end.state.Negotiating?, HasSettled(s.called.end, offer, offer'));
    ParsesBytes(f);
    UpStays(s.caller.end, now);
    var e := Expire(s.caller.end, now);
    NotEstablishing(s, offer, offer');
    PlainNumbered(f);
    if f.control.U? {
      UpIgnores(e, f, Reply(offer, offer'), s.caller.end.state.Negotiating?, HasSettled(s.called.end, offer, offer'));
    } else {
      NumberedLeaves(e, f, f.cr == !e.originate, now);
    }
  }

  lemma UpIgnores(e: End, f: Frame, reply: Option<XidField.Compression>, negotiating: bool, settled: bool)
    requires Up(e) && e.originate && CalledUrgent(f, reply, negotiating, settled)
    ensures ReceiveUnnumbered(e, f.control.command, f.control.pf, f.cr == !e.originate, f.info) == e
  {
    hide XidField.Bytes;
  }

  /** T401 running out at an end that is or was connected changes none of its sequence variables. */
  lemma ExpireUp(e: End, now: int)
    requires Up(e)
    ensures var e' := Expire(e, now);
      && e' == e.(state := e'.state, timer := e'.timer, recovery := e'.recovery, retries := e'.retries, owed := e'.owed,
        queue := e'.queue, sent := e'.sent)
      && ((e'.state == e.state && e'.sent == e.sent) || e'.state.Released?)
  {
    hide Retry, Recover;
    RecoverUp(e);
  }

  lemma RecoverUp(e: End)
    ensures var e' := Recover(e);
      && e' == e.(state := e'.state, timer := e'.timer, recovery := e'.recovery, retries := e'.retries, owed := e'.owed,
        queue := e'.queue, sent := e'.sent)
      && ((e'.state == e.state && e'.sent == e.sent) || e'.state.Released?)
  {
  }

  lemma ExpireGone(e: End, now: int)
    requires Up(e)
    ensures var e' := Expire(e, now);
      && e'.received == e.received && e'.vr == e.vr && Up(e')
      && (e.state.Released? ==> e'.state.Released?)
      && (e'.state.Connected? ==>
        && e.state.Connected? && NothingPassed(e') == NothingPassed(e)
        && e'.sent == e.sent && e'.vs == e.vs && e'.va == e.va)
  {
    hide Expire;
    ExpireUp(e, now);
  }

  lemma IFramePasses(e: End, now: int)
    ensures var e' := NextIFrame(e, now).0;
      && e'.state == e.state && e'.received == e.received && e'.va == e.va && e'.vr == e.vr
      && ((e'.vs == e.vs && e'.sent == e.sent) || e'.sent != [])
  {
  }

  lemma PassedStays(e: End, now: int)
    requires e.state.Connected? && !NothingPassed(e) && Lapm.After(e.vs, e.va) <= |e.sent|
    ensures var e' := NextNumbered(e, now).0;
      e'.state.Connected? && !NothingPassed(e') && e'.received == e.received && e'.vr == e.vr
  {
    hide OwedFrame, Paid, NextIFrame;
    IFramePasses(e, now);
  }

  /** Sending makes the called end no fresher. */
  lemma CalledSends(e0: End, now: int)
    requires Up(e0) && (e0.state.Connected? ==> !NothingPassed(e0) && Lapm.After(e0.vs, e0.va) <= |e0.sent|)
    ensures var e := NextFrame(e0, now).0;
      && e.received == e0.received && (e0.state.Released? ==> e.state.Released?)
      && (e.state.Released? || (e.state.Connected? && !NothingPassed(e)))
  {
    hide Expire, NextNumbered, Lapm.After, NothingPassed;
    ExpireGone(e0, now);
    var e := Expire(e0, now);
    if e.state.Connected? {
      PassedStays(e, now);
      if e.urgent != [] {
        PassedAnyway(e, NextFrame(e0, now).0);
      }
    }
  }

  lemma PassedAnyway(e: End, e': End)
    requires e'.vs == e.vs && e'.va == e.va && e'.vr == e.vr && e'.sent == e.sent
    ensures NothingPassed(e') == NothingPassed(e)
  {
  }

  lemma XidCommandKeeps(e: End, offer: Option<Directions>, offer': Option<Directions>)
    requires ValidOffer(offer) && ValidOffer(offer') && e.offer == offer' && HasSettled(e, offer, offer')
    ensures var e' := XidCommand(e, XidField.Bytes(OwnXid(offer)));
      && e'.state == e.state && e'.received == e.received
      && e'.vs == e.vs && e'.va == e.va && e'.vr == e.vr && e'.sent == e.sent
  {
    hide XidField.Parse, XidField.Bytes, Agree, UnnumberedFrame, HasSettled, OwnXid;
    XidCommandSettles(e, offer, offer');
    var parsed := XidField.Parse(XidField.Bytes(OwnXid(offer)));
    if parsed.Some? {
      AgreeTweaks(e, parsed.value);
    }
  }

  /** Up to the SABME, nothing that the called end hears carries data; the SABME releases it. */
  lemma CalledHears(s: Pair, now: int, offer: Option<Directions>, offer': Option<Directions>)
    requires ValidOffer(offer) && ValidOffer(offer') && SystemOk(s, offer, offer') && s.caller.out != []
    requires Up(s.called.end) && (s.called.end.state.Connected? ==>
      !NothingPassed(s.called.end) && s.caller.out[0].frame.control.U?)
    ensures var e := Receive(s.called.end, Bytes(s.caller.out[0].frame), now);
      && e.received == s.called.end.received
      && (s.called.end.state.Released? ==> e.state.Released?)
      && (e.state.Released?
        || (e.state.Connected? && !NothingPassed(e) && s.caller.out[0].frame.control != U(Sabme, true)))
  {
    hide Joined, Talking, Expire, Bytes, Parse, XidField.Bytes, XidCommand, HasSettled, Plain, NothingPassed, Release;
    var f := s.caller.out[0].frame;
    CalledPops(s, offer, offer');
    CallerFrameWellFormed(f, offer, s.caller.end.state.Negotiating?, HasSettled(s.called.end, offer, offer'));
    ParsesBytes(f);
    ExpireGone(s.called.end, now);
    ExpireLeaves(s.called.end, now);
    var e := Expire(s.called.end, now);
    PlainNumbered(f);
    TalkingCalled(s, offer, offer');
    SettledThroughExpiry(s.called.end, offer, offer', now);
    if e.state.Connected? {
      if f.control.command == Xid {
        XidCommandKeeps(e, offer, offer');
        PassedAnyway(e, XidCommand(e, f.info));
      } else {
        SabmeReleases(e, f.info);
      }
    }
  }

  lemma SabmeReleases(e: End, info: Octets)
    requires e.state.Connected? && !NothingPassed(e)
    ensures var e' := ReceiveUnnumbered(e, Sabme, true, true, info); e'.state.Released? && e'.received == e.received
  {
  }

  lemma WindowOfCalled(s: Pair, offer: Option<Directions>, offer': Option<Directions>)
    requires SystemOk(s, offer, offer')
    ensures var e := s.called.end; e.state.Connected? ==> Lapm.After(e.vs, e.va) <= |e.sent|
  {
    hide Talking, Carried, Flatten;
  }

  lemma PopsComing(x: Half)
    requires x.out != []
    ensures Coming(x) != [] && Coming(x)[0] == x.out[0].frame && Coming(x)[1..] == Coming(x.(out := x.out[1..]))
  {
  }

  lemma DoomedActs(s: Pair, a: Action, offer: Option<Directions>, offer': Option<Directions>)
    requires ValidOffer(offer) && ValidOffer(offer') && SystemOk(s, offer, offer') && Doomed(s)
    requires a.Transmit? || a.Arrive?
    ensures Doomed(Act(s, a)) && Delivered(Act(s, a).called) == Delivered(s.called)
  {
    hide SystemOk, Expire, NextFrame, Receive, Bytes, TransmitFrom, Coming, SabmeFirst, NothingPassed;
    var s' := Act(s, a);
    match a
    case Transmit(Caller, now) => SendingComes(s.caller, now);
    case Transmit(Called, now) =>
      WindowOfCalled(s, offer, offer');
      CalledSends(s.called.end, now);
      TransmitIs(s.called, now);
    case Arrive(Caller, now) =>
      if s.called.out != [] {
        CallerHears(s, now, offer, offer');
        ComingSame(s.caller, s'.caller);
      }
    case Arrive(Called, now) =>
      if s.caller.out != [] {
        PopsComing(s.caller);
        SabmeFirstIs(Coming(s.caller));
        CalledHears(s, now, offer, offer');
      }
  }

  lemma SabmeFirstIs(frames: seq<Frame>)
    ensures SabmeFirst(frames) ==>
      frames[0].control.U? && (frames[0].control == U(Sabme, true) || SabmeFirst(frames[1..]))
  {
  }

  lemma TransmitIs(x: Half, now: int)
    ensures var x' := TransmitFrom(x, now); x'.end == NextFrame(x.end, now).0 && x'.taken == x.taken
  {
    hide NextFrame, Expire;
  }

  lemma {:induction false} DoomedRuns(
      s: Pair, actions: seq<Action>, from: int, to: int, offer: Option<Directions>, offer': Option<Directions>)
    requires ValidOffer(offer) && ValidOffer(offer') && SystemOk(s, offer, offer') && Doomed(s)
    requires Onwards(actions, from, to)
    ensures Delivered(Run(s, actions).called) == Delivered(s.called)
    decreases |actions|
  {
    hide SystemOk, Act, Doomed, Delivered;
    if actions != [] {
      DoomedActs(s, actions[0], offer, offer');
      RunOk(s, [actions[0]], offer, offer');
      assert [actions[0]][1..] == [];
      NothingRuns(Act(s, actions[0]));
      DoomedRuns(Act(s, actions[0]), actions[1..], actions[0].now, to, offer, offer');
    }
  }

  /** The caller's urgent frames are unnumbered. */
  lemma UnsafeIsDoomed(s: Pair, offer: Option<Directions>, offer': Option<Directions>)
    requires SystemOk(s, offer, offer') && BothConnected(s) && s.caller.out == [] && !SafeToSend(s)
    ensures Doomed(s)
  {
    hide Joined, CalledFrames, Agreement, Mirrored, Reply, XidField.Bytes, NothingPassed, SabmeFirst, CallerUrgent;
    var x := s.caller;
    var i :| 0 <= i < |x.end.urgent| && x.end.urgent[i].0.control == U(Sabme, true);
    forall f | f in Coming(x) ensures f.control.U? {
      var j :| 0 <= j < |x.end.urgent| && f == x.end.urgent[j].0;
      UrgentUnnumbered(f, offer, x.end.state.Negotiating?, HasSettled(s.called.end, offer, offer'));
    }
    UrgentSabmeFirst(Coming(x), i);
  }

  lemma UrgentUnnumbered(f: Frame, offer: Option<Directions>, negotiating: bool, settled: bool)
    requires CallerUrgent(f, offer, negotiating, settled)
    ensures f.control.U?
  {
    hide XidField.Bytes;
  }

  /** A SABME left over when data has passed lets nothing more through to the called end. */
  lemma SabmeStops(
      s: Pair, from: int, s': Pair, to: int, offer: Option<Directions>, offer': Option<Directions>)
    requires ValidOffer(offer) && ValidOffer(offer') && Reachable(s, offer, offer')
    requires BothConnected(s) && s.caller.out == [] && !SafeToSend(s)
    requires Leads(s, from, s', to)
    ensures Delivered(s'.called) == Delivered(s.called) && s'.caller.given == s.caller.given
  {
    hide Reachable, SystemOk, Onwards, Run, Doomed, Delivered, SafeToSend;
    ReachableOk(s, offer, offer');
    UnsafeIsDoomed(s, offer, offer');
    LeadsGiven(s, from, s', to);
    var actions: seq<Action> :| Onwards(actions, from, to) && Run(s, actions) == s';
    DoomedRuns(s, actions, from, to, offer, offer');
  }

  /**
   * So where the called end has not had everything yet, everything can be delivered exactly when no SABME is left over
   * from establishment, or no data has passed at the called end.
   */
  lemma DeliversExactly(s: Pair, offer: Option<Directions>, offer': Option<Directions>, now: int)
    requires ValidOffer(offer) && ValidOffer(offer') && Reachable(s, offer, offer')
    requires BothConnected(s) && s.caller.out == [] && s.called.out == []
    requires s.caller.end.t401 >= 1 && s.called.end.t401 >= 1
    requires s.caller.end.retries + 1 < N400 && s.called.end.retries + 1 < N400
    requires Delivered(s.called) != s.caller.given
    ensures (exists s': Pair, later: int :: Leads(s, now, s', later) && AllDelivered(s')) <==> SafeToSend(s)
  {
    hide Reachable, Leads, SafeToSend, Delivered;
    if SafeToSend(s) {
      var s', later := DeliversAfterLoss(s, offer, offer', now);
    } else {
      forall s': Pair, later: int | Leads(s, now, s', later) ensures !AllDelivered(s') {
        SabmeStops(s, now, s', later, offer, offer');
      }
    }
  }

  // How a SABME is left over.

  lemma ReachableActs(s: Pair, a: Action, offer: Option<Directions>, offer': Option<Directions>)
    requires Reachable(s, offer, offer')
    ensures Reachable(Act(s, a), offer, offer')
  {
    hide Act, Start;
    var t401: nat, t401': nat, now: int, actions: seq<Action> :|
      s == Run(Start(t401, offer, t401', now, offer'), actions);
    RunsOn(Start(t401, offer, t401', now, offer'), actions, [a]);
    assert [a][1..] == [];
    NothingRuns(Act(s, a));
  }

  lemma ReachableTurned(s: Pair, side: Side, now: int, offer: Option<Directions>, offer': Option<Directions>)
    requires Reachable(s, offer, offer')
    ensures Reachable(Turned(s, side, now), offer, offer')
  {
    hide Act, Reachable;
    ReachableActs(s, Transmit(side, now), offer, offer');
    ReachableActs(Act(s, Transmit(side, now)), Arrive(Other(side), now), offer, offer');
  }

  /** The called end has accepted the call, and its UA is still to go. */
  lemma GetsAccepted(
      t401: nat, offer: Option<Directions>, t401': nat, now: int, offer': Option<Directions>,
      bytes: Octets, bytes': Octets) returns (s: Pair, y: End)
    requires t401 >= 1 && t401' >= 1 && ValidOffer(offer) && ValidOffer(offer')
    ensures Reachable(s, offer, offer') && Before(s, now, bytes, bytes') && Accepting(s, y)
  {
    hide Run, Start, Turned, Before, Proposing, Replying, Calling, Accepting, Given, Reachable;
    GivenProposes(t401, offer, t401', now, offer', bytes, bytes');
    var s0 := Given(t401, offer, t401', now, offer', bytes, bytes');
    IsReachable(t401, offer, t401', now, offer', [Give(Caller, bytes), Give(Called, bytes')]);
    var s1 := Turned(s0, Caller, now);
    var s2 := Turned(s1, Called, now);
    s := Turned(s2, Caller, now);
    Proposes(s0, now, bytes, bytes', offer, offer');
    Replies(s1, now, bytes, bytes', offer, offer', s0.called.end);
    Calls(s2, now, bytes, bytes', s1.caller.end);
    y := s2.called.end;
    ReachableTurned(s0, Caller, now, offer, offer');
    ReachableTurned(s1, Called, now, offer, offer');
    ReachableTurned(s2, Caller, now, offer, offer');
  }

  lemma IsReachable(
      t401: nat, offer: Option<Directions>, t401': nat, now: int, offer': Option<Directions>, actions: seq<Action>)
    ensures Reachable(Run(Start(t401, offer, t401', now, offer'), actions), offer, offer')
  {
    hide Run, Start;
  }

  /** A UA that comes once T401 has run out finds the next SABME urgent, and leaves it so. */
  lemma HearsLateUa(x: End, y: End, bytes: Octets, now: int)
    requires x.originate && !y.originate && x.state.Establishing? && Blank(x, bytes) && x.urgent == []
    requires x.timer.Some? && x.timer.value <= now
    ensures var x' := Receive(x, Bytes(UnnumberedFrame(y, false, Ua, true, [])), now);
      && x'.state.Connected? && x'.urgent == [SabmeOf(x)] && x'.retries == 0 && x'.t401 == x.t401
  {
    hide Parse, Bytes, ReceiveUnnumbered;
    ParsesBytes(UnnumberedFrame(y, false, Ua, true, []));
    assert [] + [SabmeOf(x)] == [SabmeOf(x)];
    LateUaConnects(Expire(x, now));
  }

  lemma LateUaConnects(e: End)
    requires e.state.Establishing?
    ensures ReceiveUnnumbered(e, Ua, true, false, []) == Connect(e)
  {
  }

  lemma TransmitAppends(x: Half, now: int)
    requires NextFrame(x.end, now).1.Some?
    ensures var x' := TransmitFrom(x, now);
      && x'.end == NextFrame(x.end, now).0 && x'.taken == x.taken && x'.given == x.given
      && |x'.out| == |x.out| + 1 && x'.out[..|x.out|] == x.out
      && x'.out[|x.out|].frame == NextFrame(x.end, now).1.value
  {
    hide NextFrame, Expire;
  }

  lemma BlankFirm(e: End, bytes: Octets, now: int)
    requires Blank(e, bytes) && e.state.Connected? && e.timer.None?
    ensures Firm(e) && !e.recovery && !Owes(e.owed) && Expire(e, now) == e && e.received == [] && e.t401 >= 1
    ensures e.retries == 0
  {
  }

  /** The called end with its UA and a first I frame gone, of which the I frame is lost. */
  lemma AcceptsAndSends(x: Half, now: int, bytes: Octets, ua: Frame) returns (x': Half)
    requires Blank(x.end, bytes) && InTime(x.end, now) && x.end.state.Connected? && x.end.timer.None?
    requires x.end.urgent == [(ua, false)] && x.out == [] && bytes != []
    ensures x' == TransmitFrom(TransmitFrom(x, now), now)
    ensures x'.taken == x.taken && |x'.out| == 2 && x'.out[0].frame == ua
    ensures var e := x'.end;
      e.state.Connected? && e.sent != [] && e.retries == 0 && e.t401 >= 1 && e.received == []
  {
    hide NextFrame, Blank, InTime, Expire, TransmitFrom, Firm, Owes;
    SendsUrgent(x.end, bytes, now, ua, false);
    TransmitAppends(x, now);
    var x1 := TransmitFrom(x, now);
    BlankFirm(x1.end, bytes, now);
    BlankQueue(x1.end, bytes);
    SendsFirst(x1.end, now);
    TransmitAppends(x1, now);
    x' := TransmitFrom(x1, now);
    assert x'.out[0] == x'.out[..|x1.out|][0];
    FirmIs(x1.end);
  }

  lemma BlankQueue(e: End, bytes: Octets)
    requires Blank(e, bytes)
    ensures e.queue == bytes
  {
  }

  /**
   * A pair from which nothing more gets to the called end, whatever it may be given: T401 runs out at the caller just
   * before the UA arrives, and the called end has sent an I frame by then, which is lost.
   */
  lemma LateAnswer(
      t401: nat, offer: Option<Directions>, t401': nat, now: int, offer': Option<Directions>,
      bytes: Octets, bytes': Octets) returns (s: Pair)
    requires t401 >= 1 && t401' >= 1 && ValidOffer(offer) && ValidOffer(offer') && bytes != [] && bytes' != []
    ensures Reachable(s, offer, offer') && BothConnected(s) && s.caller.out == [] && s.called.out == []
    ensures s.caller.end.t401 >= 1 && s.called.end.t401 >= 1 && s.caller.end.retries == s.called.end.retries == 0
    ensures !SafeToSend(s) && Delivered(s.called) == [] && s.caller.given == bytes
    ensures forall s': Pair, later: int :: Leads(s, now, s', later) ==> Delivered(s'.called) == []
  {
    hide Reachable, Blank, InTime, NextFrame, Receive, TransmitFrom, Leads, UnnumberedFrame, Expire, Bytes, SystemOk,
      SabmeOf;
    var s3, y := GetsAccepted(t401, offer, t401', now, offer', bytes, bytes');
    var ua := UnnumberedFrame(y, false, Ua, true, []);
    var called := AcceptsAndSends(s3.called, now, bytes', ua);
    ReachableActs(s3, Transmit(Called, now), offer, offer');
    var s4 := Act(s3, Transmit(Called, now));
    ReachableActs(s4, Transmit(Called, now), offer, offer');
    var s5 := Act(s4, Transmit(Called, now));
    assert s5.called == called && s5.caller == s3.caller;
    ReachableActs(s5, Lose(Called, 1), offer, offer');
    var s6 := Act(s5, Lose(Called, 1));
    assert s6.called.out == [called.out[0]];
    ReachableHealthy(s6, offer, offer');
    CallerWaits(s6);
    var t := s6.caller.end.timer.value;
    ReachableActs(s6, Arrive(Caller, t), offer, offer');
    s := Act(s6, Arrive(Caller, t));
    HearsLateUa(s3.caller.end, y, bytes, t);
    LeftOver(s.caller.end, s3.caller.end);
    BlankFields(s3.caller.end, bytes);
    assert s.called.out == [];
    forall s': Pair, later: int | Leads(s, now, s', later) ensures Delivered(s'.called) == [] {
      SabmeStops(s, now, s', later, offer, offer');
    }
  }

  lemma BlankFields(e: End, bytes: Octets)
    requires Blank(e, bytes)
    ensures e.t401 >= 1
  {
  }

  lemma LeftOver(e: End, x: End)
    requires e.urgent == [SabmeOf(x)]
    ensures HasSabme(e)
  {
    assert e.urgent[0].0.control == U(Sabme, true);
  }

  lemma CallerWaits(s: Pair)
    requires Healthy(s) && s.caller.end.state.Establishing? && s.caller.end.urgent == []
    ensures s.caller.end.timer.Some?
  {
  }
}
