/** T401 and N400: nothing an end waits for is forgotten, and no end waits for ever. */
module LapmTimers {
  import opened Prelude
  import opened LapmFrame
  import XidField
  import opened Negotiation
  import opened Lapm

  predicate Timed(urgent: seq<(Frame, bool)>) {
    exists i :: 0 <= i < |urgent| && urgent[i].1
  }

  /** An end that waits for an answer has T401 running, or is about to send the frame that starts it. */
  predicate Watched(e: End) {
    && (e.state.Negotiating? || e.state.Establishing? ==> (e.timer.Some? || Timed(e.urgent)) && e.retries < N400)
    && (e.state.Connected? && e.recovery ==> (e.timer.Some? || e.owed.poll) && e.retries < N400)
    && (e.state.Connected? && !e.recovery && e.vs != e.va ==> e.timer.Some?)
  }

  lemma TimedAppends(urgent: seq<(Frame, bool)>, more: (Frame, bool))
    ensures Timed(urgent) || more.1 ==> Timed(urgent + [more])
  {
    if Timed(urgent) {
      var i :| 0 <= i < |urgent| && urgent[i].1;
      assert (urgent + [more])[i].1;
    }
    assert (urgent + [more])[|urgent|] == more;
  }

  lemma TimedPops(urgent: seq<(Frame, bool)>)
    requires Timed(urgent)
    ensures urgent[0].1 || Timed(urgent[1..])
  {
    var i :| 0 <= i < |urgent| && urgent[i].1;
    if i > 0 {
      assert urgent[1..][i - 1].1;
    }
  }

  lemma UrgeWatched(e: End, frame: Frame, timed: bool)
    requires Watched(e)
    ensures Watched(Urge(e, frame, timed))
  {
    TimedAppends(e.urgent, (frame, timed));
  }

  lemma RetryWatched(e: End)
    requires (e.state.Negotiating? || e.state.Establishing?) && e.retries < N400
    ensures Watched(SendXid(e)) && Watched(SendSabme(e))
  {
    hide XidField.Bytes, OwnXid, Timed;
    TimedAppends(e.urgent, SendXid(e).urgent[|e.urgent|]);
    TimedAppends(e.urgent, SendSabme(e).urgent[|e.urgent|]);
  }

  lemma RetriesWatched(e: End)
    requires e.state.Negotiating? || e.state.Establishing?
    ensures Watched(Retry(e))
  {
    hide SendXid, SendSabme, Watched;
    var e1 := e.(timer := None, retries := e.retries + 1);
    ReleaseWatched(e1);
    if e1.retries < N400 {
      RetryWatched(e1);
    }
  }

  lemma RecoversWatched(e: End)
    requires e.state.Connected?
    ensures Watched(Recover(e))
  {
    hide Timed;
  }

  lemma IdleWatched(e: End)
    requires e.state.Released? || e.state.Waiting?
    ensures Watched(e)
  {
    hide Timed;
  }

  lemma ExpireWatched(e: End, now: int)
    requires Watched(e)
    ensures Watched(Expire(e, now))
  {
    hide Retry, Recover, Release, Watched;
    ReleaseWatched(e);
    if e.state.Negotiating? || e.state.Establishing? {
      RetriesWatched(e);
    } else if e.state.Connected? {
      RecoversWatched(e);
    } else {
      IdleWatched(e.(timer := None));
    }
  }

  /** An I frame changes neither state nor recovery, and leaves T401 running. */
  lemma NextIFrameKeeps(e: End, now: int)
    ensures var (e', frame) := NextIFrame(e, now);
      && e'.state == e.state && e'.recovery == e.recovery && e'.retries == e.retries && e'.t401 == e.t401
      && e'.urgent == e.urgent && e'.owed == (if frame.None? then e.owed else e.owed.(ack := false))
      && (if frame.None? then e' == e else !e.recovery && e'.timer.Some?)
      && (e.timer.Some? ==> e'.timer.Some?)
  {
  }

  lemma NumberedNextWatched(e: End, now: int)
    requires Watched(e) && e.state.Connected?
    ensures Watched(NextNumbered(e, now).0)
  {
    hide NextIFrame, Timed, SupervisoryFrame;
    NextIFrameKeeps(e, now);
  }

  lemma NextWatched(e0: End, now: int)
    requires Watched(e0)
    ensures Watched(NextFrame(e0, now).0)
  {
    hide Expire, NextNumbered, Timed;
    ExpireWatched(e0, now);
    var e := Expire(e0, now);
    if e.urgent != [] {
      if Timed(e.urgent) {
        TimedPops(e.urgent);
      }
    } else if e.state.Connected? {
      NumberedNextWatched(e, now);
    }
  }

  lemma AcknowledgeWatched(e: End, nr: Seven, now: int)
    requires Watched(e) && e.state.Connected?
    ensures var (e', valid) := Acknowledge(e, nr, now);
      Watched(e') && e'.state.Connected? && (valid ==> e'.va == nr)
  {
  }

  lemma SupervisedWatched(e: End, kind: Supervisory, nr: Seven, pf: bool, command: bool, now: int)
    requires Watched(e) && e.state.Connected? && e.va == nr
    ensures Watched(Supervised(e, kind, nr, pf, command, now))
  {
  }

  lemma InformedWatched(e: End, ns: Seven, poll: bool, info: Octets)
    requires Watched(e) && e.state.Connected?
    ensures Watched(Informed(e, ns, poll, info))
  {
  }

  lemma ReleaseWatched(e: End)
    ensures Watched(Release(e))
  {
  }

  lemma ConnectWatched(e: End)
    ensures Watched(Connect(e)) && Connect(e).state.Connected?
  {
  }

  lemma NumberedWatched(e0: End, frame: Frame, command: bool, now: int)
    requires !frame.control.U? && Watched(e0)
    ensures Watched(ReceiveNumbered(e0, frame, command, now))
  {
    hide Connect, Acknowledge, Supervised, Informed, Release, Watched;
    ConnectWatched(e0);
    var e := if e0.state.Establishing? then Connect(e0) else e0;
    ReleaseWatched(e);
    if e.state.Connected? {
      match frame.control
      case I(ns, nr, poll) =>
        AcknowledgeWatched(e, nr, now);
        var e1 := Acknowledge(e, nr, now).0;
        ReleaseWatched(e1);
        InformedWatched(e1, ns, poll, frame.info);
      case S(kind, nr, pf) =>
        AcknowledgeWatched(e, nr, now);
        var (e1, valid) := Acknowledge(e, nr, now);
        ReleaseWatched(e1);
        if valid {
          SupervisedWatched(e1, kind, nr, pf, command, now);
        }
    }
  }

  lemma AdoptedWatched(e: End, theirs: XidField.Xid, agreed: Option<Directions>)
    requires Watched(e)
    ensures Watched(Adopted(e, theirs, agreed))
  {
    hide N401Of, KOf, Timed;
  }

  lemma AgreeWatched(e: End, theirs: XidField.Xid)
    requires Watched(e)
    ensures Agree(e, theirs).Some? ==> Watched(Agree(e, theirs).value.0)
  {
    hide Watched, Adopted, Answer, N401Of, KOf;
    match (if !e.state.Connected? && theirs.compression.Some? then Answer(e.offer, theirs.compression.value)
      else Negotiation.Ok((XidField.Compression(0, None, None), e.compression)))
    case ProceduralError =>
    case Ok((reply, agreed)) => AdoptedWatched(e, theirs, agreed);
  }

  lemma AgreedWatched(e: End, info: Octets)
    requires Watched(e)
    ensures Watched(XidCommand(e, info))
  {
    hide Watched, XidField.Parse, XidField.Bytes, Agree, Release, UnnumberedFrame, Urge;
    ReleaseWatched(e);
    match XidField.Parse(info)
    case None =>
    case Some(theirs) =>
      AgreeWatched(e, theirs);
      match Agree(e, theirs)
      case None =>
      case Some((e1, ours)) =>
        UrgeWatched(e1, UnnumberedFrame(e1, false, Xid, false, XidField.Bytes(ours)), false);
  }

  lemma ConcludedWatched(e: End, info: Octets)
    requires Watched(e)
    ensures Watched(XidResponse(e, info))
  {
    hide Watched, XidField.Parse, Conclude, Adopted, Release, SendSabme;
    ReleaseWatched(e);
    match XidField.Parse(info)
    case None =>
    case Some(theirs) =>
      match (if e.offer.None? then Negotiation.Ok(None) else Conclude(e.offer.value, theirs.compression))
      case ProceduralError =>
      case Ok(agreed) => RetryWatched(Adopted(e, theirs, agreed).(state := Establishing, retries := 0, timer := None));
  }

  lemma BreakWatched(e: End, pf: bool, info: Octets)
    requires Watched(e)
    ensures Watched(BreakSignal(e, pf, info))
  {
    hide Timed, UnnumberedFrame;
    var e' := BreakSignal(e, pf, info);
    if |e'.urgent| > |e.urgent| {
      TimedAppends(e.urgent, e'.urgent[|e.urgent|]);
    }
  }

  lemma UnnumberedWatched(e: End, kind: Unnumbered, pf: bool, command: bool, info: Octets)
    requires Watched(e)
    ensures Watched(ReceiveUnnumbered(e, kind, pf, command, info))
  {
    hide XidCommand, XidResponse, BreakSignal, Connect, Release, Watched, UnnumberedFrame;
    AgreedWatched(e, info);
    ConcludedWatched(e, info);
    BreakWatched(e, pf, info);
    ConnectWatched(e);
    UrgeWatched(Connect(e), UnnumberedFrame(Connect(e), false, Ua, pf, []), false);
    UrgeWatched(e, UnnumberedFrame(e, false, Ua, pf, []), false);
    UrgeWatched(e, UnnumberedFrame(e, false, Dm, pf, []), false);
    ReleaseWatched(e);
    ReleaseWatched(Respond(e, Ua, pf, []));
  }

  /** No octets, at any time, make an end forget what it waits for. */
  lemma ReceiveWatched(e0: End, bytes: Octets, now: int)
    requires Watched(e0)
    ensures Watched(Receive(e0, bytes, now))
  {
    hide Expire, ReceiveUnnumbered, ReceiveNumbered, Release, Parse, Watched;
    ExpireWatched(e0, now);
    var e := Expire(e0, now);
    ReleaseWatched(e);
    match Parse(bytes)
    case Ok(frame) =>
      var command := frame.cr == !e.originate;
      if frame.control.U? {
        UnnumberedWatched(e, frame.control.command, frame.control.pf, command, frame.info);
      } else {
        NumberedWatched(e, frame, command, now);
      }
    case _ =>
  }

  // Every life of an end.

  datatype Event =
    | Sends(bytes: Octets)
    | Transmits(now: int)
    | Hears(bytes: Octets, now: int)

  function After(e: End, event: Event): End {
    match event
    case Sends(bytes) => Send(e, bytes)
    case Transmits(now) => NextFrame(e, now).0
    case Hears(bytes, now) => Receive(e, bytes, now)
  }

  function Life(e: End, events: seq<Event>): End
    decreases |events|
  {
    if events == [] then e else Life(After(e, events[0]), events[1..])
  }

  /** Whatever an end is given, asked for and told, in any order and at any times, it forgets nothing it waits for. */
  lemma {:induction false} NothingForgotten(e: End, events: seq<Event>)
    requires Watched(e)
    ensures Watched(Life(e, events))
    decreases |events|
  {
    hide Watched, NextFrame, Receive;
    if events != [] {
      match events[0] {
        case Sends(bytes) => SendWatched(e, bytes);
        case Transmits(now) => NextWatched(e, now);
        case Hears(bytes, now) => ReceiveWatched(e, bytes, now);
      }
      NothingForgotten(After(e, events[0]), events[1..]);
    }
  }

  lemma SendWatched(e: End, bytes: Octets)
    requires Watched(e)
    ensures Watched(Send(e, bytes))
  {
  }

  lemma StartsWatched(t401: nat, now: int, offer: Option<Directions>)
    ensures Watched(Originator(t401, offer)) && Watched(Answerer(t401, now, offer))
  {
    hide XidField.Bytes, OwnXid, Timed;
    TimedAppends([], Originator(t401, offer).urgent[0]);
  }

  /** So it is with every end from its start. */
  lemma NeverForgotten(t401: nat, now: int, offer: Option<Directions>, events: seq<Event>)
    ensures Watched(Life(Originator(t401, offer), events))
    ensures Watched(Life(Answerer(t401, now, offer), events))
  {
    hide Watched, Originator, Answerer, Life;
    StartsWatched(t401, now, offer);
    NothingForgotten(Originator(t401, offer), events);
    NothingForgotten(Answerer(t401, now, offer), events);
  }

  // Silence.

  /** The end is given data and asked for frames, but hears nothing. */
  predicate Unanswered(events: seq<Event>) {
    forall event :: event in events ==> !event.Hears?
  }

  /** A call for a frame at which T401 has run out. */
  predicate Expires(e: End, event: Event) {
    event.Transmits? && !e.state.Released? && e.timer.Some? && e.timer.value <= event.now
  }

  /** How often T401 runs out. */
  function Expiries(e: End, events: seq<Event>): nat
    decreases |events|
  {
    if events == [] then 0
    else Bit(Expires(e, events[0])) + Expiries(After(e, events[0]), events[1..])
  }

  /** How many more times T401 may run out before the end gives up. */
  function Patience(e: End): int {
    match e.state
    case Released => 0
    case Connected => if e.recovery then N400 - e.retries else N400 + 1
    case _ => N400 - e.retries
  }

  function Owing(owed: Owed): nat {
    Bit(owed.reject.Some?) + Bit(owed.finalRr) + Bit(owed.poll)
  }

  /** Frames that go out before or as what T401 waits for. */
  function Pending(e: End): nat {
    |e.urgent| + Owing(e.owed)
  }

  lemma RetryCosts(e: End)
    requires e.state.Negotiating? || e.state.Establishing?
    ensures forall e' :: e' == SendXid(e) || e' == SendSabme(e) ==>
      && e'.state == e.state && e'.retries == e.retries && e'.t401 == e.t401 && e'.timer == e.timer
      && Pending(e') == Pending(e) + 1 && e'.urgent != []
  {
    hide XidField.Bytes, OwnXid;
  }

  lemma RecoveryCosts(e: End, e': End)
    requires e.state.Connected?
    requires e' == e.(timer := None, recovery := true, retries := e'.retries, owed := e.owed.(poll := true))
    ensures Pending(e') <= Pending(e) + 1
  {
  }

  lemma ExpiryCostsConnected(e: End, now: int)
    requires Watched(e) && e.state.Connected? && e.timer.Some? && e.timer.value <= now
    ensures var e' := Expire(e, now);
      && e'.t401 == e.t401 && e'.timer.None? && Patience(e') == Patience(e) - 1
      && (!e'.state.Released? ==> e'.state == e.state && Pending(e') <= Pending(e) + 1 && e'.recovery && e'.owed.poll)
  {
    hide Timed, Pending;
    RecoveryCosts(e, e.(timer := None, recovery := true, retries := if e.recovery then e.retries + 1 else 0,
      owed := e.owed.(poll := true)));
  }

  lemma ExpiryCostsBefore(e: End, now: int)
    requires Watched(e) && (e.state.Negotiating? || e.state.Establishing?) && e.timer.Some? && e.timer.value <= now
    ensures var e' := Expire(e, now);
      && e'.t401 == e.t401 && e'.timer.None? && Patience(e') == Patience(e) - 1
      && (!e'.state.Released? ==> e'.state == e.state && Pending(e') <= Pending(e) + 1 && e'.urgent != [])
  {
    hide SendXid, SendSabme, Timed, Pending;
    var e1 := e.(timer := None, retries := e.retries + 1);
    PendingAnyway(e, e1);
    RetryCosts(e1);
  }

  /** T401 running out costs patience, and puts one frame more before the end. */
  lemma ExpiryCosts(e: End, now: int)
    requires Watched(e) && !e.state.Waiting? && !e.state.Released? && e.timer.Some? && e.timer.value <= now
    ensures var e' := Expire(e, now);
      && e'.t401 == e.t401 && e'.timer.None? && Patience(e') == Patience(e) - 1
      && (!e'.state.Released? ==>
        && e'.state == e.state && Pending(e') <= Pending(e) + 1
        && (if e.state.Connected? then e'.recovery && e'.owed.poll else e'.urgent != []))
  {
    hide Expire, Watched, Patience, Pending;
    if e.state.Connected? {
      ExpiryCostsConnected(e, now);
    } else {
      ExpiryCostsBefore(e, now);
    }
  }

  lemma PendingAnyway(e: End, e': End)
    requires e' == e.(timer := e'.timer, retries := e'.retries)
    ensures Pending(e') == Pending(e)
  {
  }

  /** What `NextFrame` does once T401 has been looked at. */
  function Sending(e: End, now: int): End {
    if e.urgent != [] then
      e.(urgent := e.urgent[1..], timer := if e.urgent[0].1 then Some(now + e.t401) else e.timer)
    else if e.state.Connected? then NextNumbered(e, now).0
    else e
  }

  lemma SendingIsNext(e: End, now: int)
    ensures NextFrame(e, now).0 == Sending(Expire(e, now), now)
  {
    hide Expire, NextNumbered;
  }

  /** What is owed and the timer are all that a supervisory frame changes. */
  lemma NumberedIs(e: End, now: int)
    ensures var e' := NextNumbered(e, now).0;
      e' == NextIFrame(e, now).0 || (e' == e.(owed := e'.owed, timer := e'.timer) && (e.timer.Some? ==> e'.timer.Some?))
  {
    hide NextIFrame, SupervisoryFrame, OwedFrame, Paid, Polls, Owes;
  }

  lemma PaidIsLess(owed: Owed)
    requires Owes(owed)
    ensures Owing(Paid(owed)) < Owing(owed)
  {
  }

  lemma NumberedPays(e: End, now: int)
    ensures var owed := NextNumbered(e, now).0.owed;
      if Owes(e.owed) then Owing(owed) < Owing(e.owed) else Owing(owed) == Owing(e.owed)
  {
    hide NextIFrame, OwedFrame, Paid, Polls;
    NextIFrameKeeps(e, now);
    if Owes(e.owed) {
      PaidIsLess(e.owed);
    }
  }

  predicate Steady(e: End, e': End) {
    && e'.state == e.state && e'.recovery == e.recovery && e'.retries == e.retries && e'.t401 == e.t401
    && e'.urgent == e.urgent
    && (e.timer.Some? ==> e'.timer.Some?)
  }

  lemma OwedIsSteady(e: End, e': End)
    requires e' == e.(owed := e'.owed, timer := e'.timer) && (e.timer.Some? ==> e'.timer.Some?)
    ensures Steady(e, e')
  {
  }

  lemma NumberedKeepsPatience(e: End, now: int)
    ensures var e' := NextNumbered(e, now).0; Steady(e, e') && Pending(e') <= Pending(e)
  {
    hide NextIFrame, NextNumbered, Owing;
    NextIFrameKeeps(e, now);
    NumberedIs(e, now);
    NumberedPays(e, now);
    var e' := NextNumbered(e, now).0;
    if e' != NextIFrame(e, now).0 {
      OwedIsSteady(e, e');
    }
  }

  /** Sending costs no patience, and adds nothing to what is to be sent first. */
  lemma SendingKeepsPatience(e: End, now: int)
    ensures var e' := Sending(e, now);
      && e'.state == e.state && e'.recovery == e.recovery && e'.retries == e.retries && e'.t401 == e.t401
      && Patience(e') == Patience(e) && Pending(e') <= Pending(e)
      && (e.timer.Some? ==> e'.timer.Some?)
  {
    hide NextNumbered, Owing;
    NumberedKeepsPatience(e, now);
  }

  lemma NotExpired(e: End, now: int)
    requires !e.state.Waiting? && (e.timer.None? || now < e.timer.value || e.state.Released?)
    ensures var e' := Expire(e, now); e' == e || (e.state.Released? && e' == e.(timer := None))
  {
  }

  lemma HasPatience(e: End)
    requires Watched(e) && !e.state.Waiting?
    ensures Patience(e) == 0 <==> e.state.Released?
    ensures Patience(e) >= 0
  {
    hide Timed;
  }

  /** One event costs patience exactly if T401 runs out. */
  lemma EventCosts(e: End, event: Event)
    requires Watched(e) && !e.state.Waiting? && !event.Hears?
    ensures var e' := After(e, event);
      && Watched(e') && !e'.state.Waiting?
      && Patience(e') == Patience(e) - Bit(Expires(e, event))
  {
    hide Watched, Sending, Expire, Pending, NextFrame, Patience;
    match event
    case Sends(bytes) =>
      SendWatched(e, bytes);
      PatienceAnyway(e, Send(e, bytes));
    case Transmits(now) =>
      NextWatched(e, now);
      SendingIsNext(e, now);
      SendingKeepsPatience(Expire(e, now), now);
      if Expires(e, event) {
        ExpiryCosts(e, now);
        PatienceLeft(e, now);
      } else {
        NotExpired(e, now);
        PatienceAnyway(e, Expire(e, now));
      }
  }

  lemma PatienceAnyway(e: End, e': End)
    requires e'.state == e.state && e'.recovery == e.recovery && e'.retries == e.retries
    ensures Patience(e') == Patience(e)
  {
  }

  lemma PatienceLeft(e: End, now: int)
    requires !e.state.Waiting?
    ensures !Expire(e, now).state.Waiting?
  {
    hide XidField.Bytes, OwnXid;
  }

  /**
   * An end that hears nothing more releases exactly when T401 has run out as often as its patience, which N400
   * bounds: whatever data it is given and however often it is asked for frames.
   */
  lemma {:induction false} SilenceCosts(e: End, events: seq<Event>)
    requires Watched(e) && !e.state.Waiting? && Unanswered(events)
    ensures Patience(e) <= N400 + 1 && Expiries(e, events) <= Patience(e)
    ensures Life(e, events).state.Released? <==> Expiries(e, events) == Patience(e)
    decreases |events|
  {
    hide Watched, Patience, Expires;
    HasPatience(e);
    AtMostPatience(e);
    if events != [] {
      EventCosts(e, events[0]);
      assert forall event :: event in events[1..] ==> event in events;
      SilenceCosts(After(e, events[0]), events[1..]);
    }
  }

  lemma AtMostPatience(e: End)
    ensures Patience(e) <= N400 + 1
  {
  }

  // The timer is soon running, and so it does run out.

  /** The end waits for an answer, or for T401. */
  predicate Busy(e: End) {
    || e.state.Negotiating? || e.state.Establishing?
    || (e.state.Connected? && (e.recovery || e.vs != e.va || e.timer.Some?))
  }

  /** A call for a frame while T401 is not running, or has run out. */
  predicate Free(e: End, event: Event) {
    event.Transmits? && !e.state.Released? && (e.timer.None? || e.timer.value <= event.now)
  }

  function Chances(e: End, events: seq<Event>): nat
    decreases |events|
  {
    if events == [] then 0
    else Bit(Free(e, events[0])) + Chances(After(e, events[0]), events[1..])
  }

  /** One frame out of those before the end. */
  lemma SendsPending(e: End, now: int)
    requires !e.state.Released? && !e.state.Waiting? && e.timer.None?
    requires if e.state.Connected? then e.recovery && (e.owed.poll || e.urgent != []) else e.urgent != []
    ensures var e' := Sending(e, now); Pending(e') < Pending(e) && (e'.timer.Some? ==> e'.timer.value == now + e.t401)
  {
    hide NextIFrame, NextNumbered, Owing;
    if e.urgent == [] {
      NumberedKeepsPatience(e, now);
      NumberedPays(e, now);
      PollStarts(e, now);
    }
  }

  lemma PollStarts(e: End, now: int)
    requires e.timer.None? && e.recovery
    ensures var e' := NextNumbered(e, now).0; e'.timer.Some? ==> e'.timer.value == now + e.t401
  {
    hide SupervisoryFrame;
  }

  /** With T401 stopped, what starts it is still to be sent. */
  lemma StoppedPends(e: End)
    requires Watched(e) && Busy(e) && e.timer.None?
    ensures if e.state.Connected? then e.recovery && e.owed.poll else e.urgent != []
    ensures Pending(e) >= 1
  {
    hide Timed;
    if !e.state.Connected? {
      TimedNonEmpty(e.urgent);
    }
  }

  lemma TimedNonEmpty(urgent: seq<(Frame, bool)>)
    requires Timed(urgent)
    ensures urgent != []
  {
  }

  lemma SendingStaysBusy(e: End, now: int)
    requires e.state.Negotiating? || e.state.Establishing? || (e.state.Connected? && (e.recovery || e.timer.Some?))
    ensures Busy(Sending(e, now))
  {
    hide Sending;
    SendingKeepsPatience(e, now);
  }

  /** With T401 stopped, one call for a frame takes one of those pending, and starts T401 if it is the one that does. */
  lemma StoppedStep(e: End, now: int)
    requires Watched(e) && Busy(e) && e.timer.None?
    ensures var e' := NextFrame(e, now).0;
      && Busy(e') && Patience(e') == Patience(e) && Pending(e') < Pending(e)
      && (e'.timer.Some? ==> e'.timer.value == now + e.t401)
  {
    hide Sending, NextFrame, Expire, Pending, Watched;
    StoppedPends(e);
    SendingIsNext(e, now);
    NotExpired(e, now);
    SendingKeepsPatience(e, now);
    SendsPending(e, now);
    SendingStaysBusy(e, now);
  }

  /** With T401 run out, the call takes patience instead. */
  lemma ExpiredStep(e: End, now: int)
    requires Watched(e) && Busy(e) && e.timer.Some? && e.timer.value <= now
    ensures var e' := NextFrame(e, now).0;
      !e'.state.Released? ==> Busy(e') && Patience(e') == Patience(e) - 1 && Pending(e') <= Pending(e)
  {
    hide Sending, NextFrame, Expire, Pending, Watched, Patience;
    SendingIsNext(e, now);
    ExpiryCosts(e, now);
    var e1 := Expire(e, now);
    SendingKeepsPatience(e1, now);
    if !e1.state.Released? {
      SendsPending(e1, now);
      SendingStaysBusy(e1, now);
    }
  }

  /** With T401 running, it goes on running. */
  lemma RunningStep(e: End, now: int)
    requires Watched(e) && Busy(e) && e.timer.Some? && now < e.timer.value
    ensures var e' := NextFrame(e, now).0;
      Busy(e') && Patience(e') == Patience(e) && Pending(e') <= Pending(e)
  {
    hide Sending, NextFrame, Expire, Pending, Watched, Patience;
    SendingIsNext(e, now);
    NotExpired(e, now);
    SendingKeepsPatience(e, now);
    SendingStaysBusy(e, now);
  }

  lemma SendStep(e: End, bytes: Octets)
    requires Busy(e)
    ensures var e' := Send(e, bytes);
      Busy(e') && Patience(e') == Patience(e) && Pending(e') == Pending(e) && e'.timer == e.timer && e'.t401 == e.t401
  {
  }

  lemma BusyEvent(e: End, event: Event)
    requires Watched(e) && Busy(e) && !event.Hears?
    ensures var e' := After(e, event);
      && Watched(e')
      && (!e'.state.Released? ==>
        Busy(e') && Patience(e') + Pending(e') <= Patience(e) + Pending(e) - Bit(Free(e, event)))
  {
    hide NextFrame, Pending, Watched, Patience, Busy;
    match event
    case Sends(bytes) =>
      SendWatched(e, bytes);
      SendStep(e, bytes);
    case Transmits(now) =>
      NextWatched(e, now);
      if e.timer.None? {
        StoppedStep(e, now);
      } else if e.timer.value <= now {
        ExpiredStep(e, now);
      } else {
        RunningStep(e, now);
      }
  }

  lemma {:induction false} StaysReleased(e: End, events: seq<Event>)
    requires Watched(e) && e.state.Released? && Unanswered(events)
    ensures Life(e, events).state.Released? && Chances(e, events) == 0
    decreases |events|
  {
    hide Watched, Patience, NextFrame;
    if events != [] {
      HasPatience(e);
      EventCosts(e, events[0]);
      HasPatience(After(e, events[0]));
      assert forall event :: event in events[1..] ==> event in events;
      StaysReleased(After(e, events[0]), events[1..]);
    }
  }

  /**
   * An end that waits and hears nothing more has released once it has been asked for a frame, with T401 stopped or
   * run out, as often as its patience and what it already had to send allow.
   */
  lemma {:induction false} SilenceReleases(e: End, events: seq<Event>)
    requires Watched(e) && Busy(e) && Unanswered(events)
    requires Chances(e, events) >= Patience(e) + Pending(e)
    ensures Life(e, events).state.Released?
    decreases |events|
  {
    hide After, Pending, Watched, Patience, Busy, Free;
    BusyIsAlive(e);
    HasPatience(e);
    if events != [] {
      var e' := After(e, events[0]);
      BusyEvent(e, events[0]);
      assert forall event :: event in events[1..] ==> event in events;
      if e'.state.Released? {
        StaysReleased(e', events[1..]);
      } else {
        SilenceReleases(e', events[1..]);
      }
    }
  }

  lemma BusyIsAlive(e: End)
    requires Busy(e)
    ensures !e.state.Waiting? && !e.state.Released?
  {
  }

  function Transmissions(events: seq<Event>): nat {
    if events == [] then 0 else Bit(events[0].Transmits?) + Transmissions(events[1..])
  }

  /**
   * An end that waits with T401 stopped has it running, for T401 from then, by as many calls for a frame as it has
   * to send first, however far apart they come.
   */
  lemma {:induction false} TimerStarts(e: End, events: seq<Event>) returns (n: nat)
    requires Watched(e) && Busy(e) && e.timer.None? && Unanswered(events)
    requires Transmissions(events) >= Pending(e)
    ensures 0 < n <= |events| && Transmissions(events[..n]) <= Pending(e)
    ensures events[n - 1].Transmits? && Life(e, events[..n]).timer == Some(events[n - 1].now + e.t401)
    decreases |events|
  {
    hide After, Pending, Watched, Busy;
    StoppedPends(e);
    StoppedEvent(e, events[0]);
    assert forall event :: event in events[1..] ==> event in events;
    var e' := After(e, events[0]);
    if e'.timer.Some? {
      n := 1;
      assert events[..1] == [events[0]];
    } else {
      var m := TimerStarts(e', events[1..]);
      n := m + 1;
      assert events[..n][1..] == events[1..][..m];
    }
  }

  lemma StoppedEvent(e: End, event: Event)
    requires Watched(e) && Busy(e) && e.timer.None? && !event.Hears?
    ensures var e' := After(e, event);
      && Watched(e') && Busy(e') && e'.t401 == e.t401
      && Pending(e') <= Pending(e) - Bit(event.Transmits?)
      && (e'.timer.Some? ==> event.Transmits? && e'.timer.value == event.now + e.t401)
  {
    hide NextFrame, Pending, Watched, Busy, Patience;
    match event
    case Sends(bytes) =>
      SendWatched(e, bytes);
      SendStep(e, bytes);
    case Transmits(now) =>
      NextWatched(e, now);
      StoppedStep(e, now);
      KeepsT401(e, now);
  }

  lemma KeepsT401(e: End, now: int)
    requires Busy(e) && e.timer.None?
    ensures NextFrame(e, now).0.t401 == e.t401
  {
    hide Sending, Expire, NextFrame, Pending, Patience;
    SendingIsNext(e, now);
    NotExpired(e, now);
    SendingKeepsPatience(e, now);
  }

  // An answerer that nobody calls.

  /** A call for a frame once the deadline has passed. */
  predicate TooLate(events: seq<Event>, deadline: int) {
    exists event :: event in events && event.Transmits? && event.now >= deadline
  }

  lemma WaitingStep(e: End, event: Event)
    requires !event.Hears? && (e.state.Waiting? || e.state.Released?)
    ensures After(e, event).state
      == if e.state.Waiting? && event.Transmits? && event.now >= e.state.deadline then Released else e.state
  {
    hide NextNumbered, Retry, Recover;
  }

  lemma {:induction false} WaitsOut(e: End, events: seq<Event>)
    requires (e.state.Waiting? || e.state.Released?) && Unanswered(events)
    ensures Life(e, events).state
      == if e.state.Waiting? && TooLate(events, e.state.deadline) then Released else e.state
    decreases |events|
  {
    hide After;
    if events != [] {
      WaitingStep(e, events[0]);
      assert forall event :: event in events[1..] ==> event in events;
      assert forall event :: event in events ==> event == events[0] || event in events[1..];
      WaitsOut(After(e, events[0]), events[1..]);
    }
  }

  /** An answerer that hears nothing gives up exactly if it is asked for a frame ten times T401 after it began. */
  lemma AnswererGivesUp(t401: nat, now: int, offer: Option<Directions>, events: seq<Event>)
    requires Unanswered(events)
    ensures Life(Answerer(t401, now, offer), events).state.Released? <==> TooLate(events, now + 10 * t401)
  {
    hide Life, TooLate;
    WaitsOut(Answerer(t401, now, offer), events);
  }
}
