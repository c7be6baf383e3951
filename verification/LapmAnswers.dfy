/** What an end answers and when the answer goes out, and what releases it. */
module LapmAnswers {
  import opened Prelude
  import opened LapmFrame
  import opened Lapm
  import opened LapmPair
  import opened LapmRun
  import opened Negotiation
  import XidField
  import T = LapmTimers

  /** The frames that an end gives when asked at these times. */
  function Frames(e: End, times: seq<int>): (frames: seq<Option<Frame>>)
    ensures |frames| == |times|
    decreases |times|
  {
    if times == [] then []
    else
      var (e', frame) := NextFrame(e, times[0]);
      [frame] + Frames(e', times[1..])
  }

  /** T401 running out adds to what is urgent, and takes nothing from it. */
  lemma ExpiryKeepsUrgent(e: End, now: int)
    ensures e.urgent <= Expire(e, now).urgent
  {
    hide Expire, SameTerms, XidCommandOf, SabmeOf;
    ExpireLeaves(e, now);
  }

  /** What is urgent goes out in order, one frame at each call, before anything else and whatever T401 does. */
  lemma {:induction false} UrgentInOrder(e: End, times: seq<int>)
    ensures forall i :: 0 <= i < |times| && i < |e.urgent| ==> Frames(e, times)[i] == Some(e.urgent[i].0)
    decreases |times|
  {
    hide Expire, NextFrame, SameTerms, Plain;
    if times != [] && e.urgent != [] {
      ExpiryKeepsUrgent(e, times[0]);
      NextLeaves(e, times[0]);
      UrgentInOrder(NextFrame(e, times[0]).0, times[1..]);
    }
  }

  /** A command from the other end has the other C/R bit than its own; an answer to it has that too. */
  function Command(e: End, kind: Unnumbered, pf: bool): Frame {
    Frame(!e.originate, U(kind, pf), [])
  }

  /** The end with one frame more that is urgent. */
  predicate WillAnswer(e: End, e': End, kind: Unnumbered, pf: bool) {
    e'.urgent == e.urgent + [(Frame(!e.originate, U(kind, pf), []), false)]
  }

  lemma DiscAnswers(e: End, pf: bool)
    ensures var e' := ReceiveUnnumbered(e, Disc, pf, true, []);
      if e.state.Released? then e' == e
      else if e.state.Connected? then
        WillAnswer(e, e', Ua, pf) && e'.state.Released? && e'.queue == [] && e'.sent == [] && e'.timer.None?
      else WillAnswer(e, e', Dm, pf) && e' == e.(urgent := e'.urgent)
  {
  }

  /**
   * A DISC releases a connected end, which answers UA; one that is not connected stays as it was and answers DM, and
   * one that has released already is silent. The answer follows what was urgent before, at whatever times the end is
   * asked for frames.
   */
  lemma DiscReleases(e0: End, pf: bool, now: int, times: seq<int>)
    ensures var e, e' := Expire(e0, now), Receive(e0, Bytes(Command(e0, Disc, pf)), now);
      if e.state.Released? then e' == e
      else
        && (if e.state.Connected? then e'.state.Released? && e'.queue == [] && e'.sent == [] && e'.timer.None?
            else e' == e.(urgent := e'.urgent))
        && |e'.urgent| == |e.urgent| + 1
        && (|times| > |e.urgent| ==>
          Frames(e', times)[|e.urgent|]
            == Some(Frame(!e0.originate, U(if e.state.Connected? then Ua else Dm, pf), [])))
        && (forall i :: 0 <= i < |e.urgent| && i < |times| ==> Frames(e', times)[i] == Some(e.urgent[i].0))
  {
    hide Expire, Parse, Bytes, ReceiveUnnumbered, Frames;
    var e := Expire(e0, now);
    var e' := Receive(e0, Bytes(Command(e0, Disc, pf)), now);
    ParsesBytes(Command(e0, Disc, pf));
    ExpireLeaves(e0, now);
    DiscAnswers(e, pf);
    UrgentInOrder(e', times);
  }

  // What releases a connected end.

  /** T401 is stopped or has not run out. */
  predicate Before(e: End, now: int) {
    e.timer.None? || now < e.timer.value
  }

  /** N(R) acknowledges what was not sent. */
  predicate BadNr(e: End, nr: Seven) {
    Lapm.After(nr, e.va) > |e.sent|
  }

  predicate Ends(e: End, f: Frame) {
    var command := f.cr != e.originate;
    match f.control
    case I(_, nr, _) => command && BadNr(e, nr)
    case S(kind, nr, _) => kind == Srej || BadNr(e, nr)
    case U(kind, pf) =>
      || (command && kind == Disc)
      || (command && kind == Sabme && !(e.vs == e.va == e.vr == 0 && e.sent == []))
      || (!command && kind == Frmr)
      || (!command && kind == Dm && (!pf || e.recovery))
  }

  lemma ValidNr(e: End, nr: Seven, now: int)
    ensures Acknowledge(e, nr, now).1 <==> !BadNr(e, nr)
  {
  }

  lemma NumberedEnds(e: End, f: Frame, now: int)
    requires e.state.Connected? && !f.control.U?
    ensures var e' := ReceiveNumbered(e, f, f.cr == !e.originate, now);
      if Ends(e, f) then e'.state.Released? else e'.state.Connected?
  {
    hide BadNr, Acknowledge, Informed, Supervised;
    var command := f.cr == !e.originate;
    ValidNr(e, f.control.nr, now);
    AcknowledgeLeaves(e, f.control.nr, now);
    var (e1, valid) := Acknowledge(e, f.control.nr, now);
    match f.control
    case I(ns, nr, poll) => InformedLeaves(e1, ns, poll, f.info);
    case S(kind, nr, pf) => SupervisedLeaves(e1, kind, nr, pf, command, now);
  }

  lemma XidStays(e: End, info: Octets)
    requires e.state.Connected?
    ensures XidCommand(e, info).state.Connected?
  {
    hide XidField.Parse, XidField.Bytes, N401Of, KOf, UnnumberedFrame;
  }

  lemma UnnumberedEnds(e: End, kind: Unnumbered, pf: bool, command: bool, info: Octets)
    requires e.state.Connected?
    ensures var e' := ReceiveUnnumbered(e, kind, pf, command, info);
      if Ends(e, Frame(command != e.originate, U(kind, pf), info)) then e'.state.Released? else e'.state.Connected?
  {
    hide XidCommand, XidResponse, UnnumberedFrame;
    XidStays(e, info);
  }

  /**
   * A frame that arrives in time releases a connected end exactly if it is a DISC, a SABME once data has passed, a
   * FRMR, a DM that the end did not poll for or got while it polls, an SREJ, or has an N(R) that is not valid; so do
   * octets that are undefined. Those that are invalid change nothing.
   */
  lemma ReleasedExactly(e: End, bytes: Octets, now: int)
    requires e.state.Connected? && Before(e, now)
    ensures var e' := Receive(e, bytes, now);
      match Parse(bytes)
      case Invalid => e' == e
      case Undefined => e'.state.Released?
      case Ok(f) => if Ends(e, f) then e'.state.Released? else e'.state.Connected?
  {
    hide Parse, ReceiveNumbered, ReceiveUnnumbered, Retry, Recover, Ends;
    match Parse(bytes)
    case Ok(f) =>
      if f.control.U? {
        UnnumberedEnds(e, f.control.command, f.control.pf, f.cr == !e.originate, f.info);
        SameFrame(e, f);
      } else {
        NumberedEnds(e, f, now);
      }
    case _ =>
  }

  lemma SameFrame(e: End, f: Frame)
    requires f.control.U?
    ensures f == Frame((f.cr == !e.originate) != e.originate, U(f.control.command, f.control.pf), f.info)
  {
  }

  // Gaps and breaks.

  lemma GapInforms(e: End, ns: Seven, poll: bool, info: Octets)
    requires ns != e.vr
    ensures var e' := Informed(e, ns, poll, info);
      && e'.vr == e.vr && e'.received == e.received && e'.urgent == e.urgent && e'.state == e.state
      && e'.reject && e'.owed.reject == (if e.reject then e.owed.reject else Some(poll))
      && (e.reject && poll ==> e'.owed.finalRr)
      && e'.timer == e.timer && e'.originate == e.originate
  {
  }

  lemma RejectsFirst(e: End, now: int)
    requires e.state.Connected? && Before(e, now) && e.urgent == [] && e.owed.reject.Some?
    ensures NextFrame(e, now).1 == Some(Frame(!e.originate, S(Rej, e.vr, e.owed.reject.value), []))
  {
    hide Retry, Recover, NextIFrame;
  }

  lemma AcknowledgeStays(e: End, nr: Seven, now: int)
    requires !BadNr(e, nr)
    ensures var (e', valid) := Acknowledge(e, nr, now);
      && valid && e'.vr == e.vr && e'.received == e.received && e'.urgent == e.urgent && e'.state == e.state
      && e'.reject == e.reject && e'.owed == e.owed && e'.originate == e.originate
      && (e'.timer.None? || e'.timer == e.timer || e'.timer == Some(now + e.t401))
  {
    hide Lapm.After;
  }

  /**
   * An I frame out of sequence is not delivered. The first of a gap is answered at once by a REJ for the frame awaited,
   * with the poll's F; the others by no other REJ.
   */
  lemma GapIsRejected(e: End, ns: Seven, nr: Seven, poll: bool, info: Octets, now: int, at: int)
    requires e.state.Connected? && Before(e, now) && !BadNr(e, nr) && ns != e.vr
    ensures var e' := Receive(e, Bytes(Frame(!e.originate, I(ns, nr, poll), info)), now);
      && e'.received == e.received && e'.vr == e.vr && e'.reject
      && (if e.reject then e'.owed.reject == e.owed.reject
          else e.urgent == [] && Before(e', at) ==>
            NextFrame(e', at).1 == Some(Frame(!e.originate, S(Rej, e.vr, poll), [])))
  {
    hide Parse, Bytes, Acknowledge, Informed, BadNr, NextFrame, Retry, Recover;
    var f := Frame(!e.originate, I(ns, nr, poll), info);
    ParsesBytes(f);
    AcknowledgeStays(e, nr, now);
    var e1 := Acknowledge(e, nr, now).0;
    GapInforms(e1, ns, poll, info);
    var e' := Informed(e1, ns, poll, info);
    if !e.reject && e.urgent == [] && Before(e', at) {
      RejectsFirst(e', at);
    }
  }

  /**
   * The I frame awaited is delivered, and ends the exception, so that the next gap is rejected again. It is to be
   * acknowledged, with F = 1 if it polls.
   */
  lemma AwaitedIsDelivered(e: End, nr: Seven, poll: bool, info: Octets, now: int)
    requires e.state.Connected? && Before(e, now) && !BadNr(e, nr)
    ensures var e' := Receive(e, Bytes(Frame(!e.originate, I(e.vr, nr, poll), info)), now);
      && e'.state.Connected? && e'.received == e.received + info && e'.vr == (e.vr + 1) % 128 && !e'.reject
      && (if poll then e'.owed.finalRr else e'.owed.ack)
  {
    hide Parse, Bytes, Acknowledge, BadNr, Retry, Recover;
    ParsesBytes(Frame(!e.originate, I(e.vr, nr, poll), info));
    AcknowledgeStays(e, nr, now);
  }

  /** A BRK is answered by a BRKACK with the opposite bit, whether it is new or sent again. */
  lemma BreakIsAnswered(e: End, pf: bool, info: Octets)
    requires e.state.Connected? && info != [] && (info[0] == 0x40 || info[0] == 0xc0)
    ensures var e' := ReceiveUnnumbered(e, Ui, pf, true, info);
      && e' == e.(rb := e'.rb, urgent := e'.urgent) && e'.rb == (info[0] == 0x40)
      && e'.urgent == e.urgent + [(Frame(!e.originate, U(Ui, pf), [if info[0] == 0x40 then 0xe0 else 0x60]), false)]
  {
  }

  // A released end.

  /** Nothing is kept to be sent. */
  predicate Empty(e: End) {
    e.queue == [] && e.sent == []
  }

  lemma ReleaseEmpties(e: End)
    ensures Release(e).state.Released? && Empty(Release(e))
  {
  }

  lemma RetryEmpties(e: End)
    requires !e.state.Released?
    ensures Retry(e).state.Released? ==> Empty(Retry(e))
    ensures Recover(e).state.Released? ==> Empty(Recover(e))
  {
    hide UnnumberedFrame, XidField.Bytes, OwnXid, Release, Empty;
    var e1 := e.(timer := None, retries := e.retries + 1);
    ReleaseEmpties(e1);
    ReleaseEmpties(e.(timer := None, recovery := true, retries := if e.recovery then e.retries + 1 else 0));
  }

  lemma ExpireEmpties(e: End, now: int)
    requires !e.state.Released?
    ensures Expire(e, now).state.Released? ==> Empty(Expire(e, now))
  {
    hide Retry, Recover, Release, Empty;
    RetryEmpties(e);
    ReleaseEmpties(e);
  }

  lemma XidEmpties(e: End, info: Octets)
    requires !e.state.Released?
    ensures XidCommand(e, info).state.Released? ==> Empty(XidCommand(e, info))
    ensures XidResponse(e, info).state.Released? ==> Empty(XidResponse(e, info))
  {
    hide XidField.Parse, XidField.Bytes, Conclude, N401Of, KOf, UnnumberedFrame, Empty, Answer, Release;
    ReleaseEmpties(e);
  }

  lemma UnnumberedEmpties(e: End, kind: Unnumbered, pf: bool, command: bool, info: Octets)
    requires !e.state.Released?
    ensures var e' := ReceiveUnnumbered(e, kind, pf, command, info); e'.state.Released? ==> Empty(e')
  {
    hide XidCommand, XidResponse, Release, Empty, UnnumberedFrame;
    XidEmpties(e, info);
    ReleaseEmpties(e);
    ReleaseEmpties(Respond(e, Ua, pf, []));
  }

  lemma NumberedEmpties(e: End, f: Frame, command: bool, now: int)
    requires !e.state.Released? && !f.control.U?
    ensures var e' := ReceiveNumbered(e, f, command, now); e'.state.Released? ==> Empty(e')
  {
    hide Acknowledge, Informed, Supervised, Release, Empty;
    var e1 := if e.state.Establishing? then Connect(e) else e;
    ReleaseEmpties(e1);
    AcknowledgeLeaves(e1, f.control.nr, now);
    var e2 := Acknowledge(e1, f.control.nr, now).0;
    ReleaseEmpties(e2);
    match f.control
    case I(ns, nr, poll) => InformedLeaves(e2, ns, poll, f.info);
    case S(kind, nr, pf) => SupervisedLeaves(e2, kind, nr, pf, command, now);
  }

  lemma ExpireReleased(e: End, now: int)
    requires e.state.Released?
    ensures var e' := Expire(e, now);
      e'.state.Released? && e'.queue == e.queue && e'.sent == e.sent && e'.received == e.received
  {
    hide Retry, Recover;
  }

  lemma ReceiveEmpties(e0: End, bytes: Octets, now: int)
    requires !e0.state.Released?
    ensures var e := Receive(e0, bytes, now); e.state.Released? ==> Empty(e)
  {
    hide Expire, ReceiveNumbered, ReceiveUnnumbered, Parse, Empty, Release;
    ExpireEmpties(e0, now);
    var e := Expire(e0, now);
    ReleaseEmpties(e);
    match Parse(bytes)
    case Ok(f) =>
      var command := f.cr == !e.originate;
      if f.control.U? {
        if e.state.Released? {
          ReleasedHears(e, f, command, now);
        } else {
          UnnumberedEmpties(e, f.control.command, f.control.pf, command, f.info);
        }
      } else if e.state.Released? {
        ReleasedHears(e, f, command, now);
      } else {
        NumberedEmpties(e, f, command, now);
      }
    case _ =>
  }

  lemma ReleasedHears(e: End, f: Frame, command: bool, now: int)
    requires e.state.Released?
    ensures f.control.U? ==> ReceiveUnnumbered(e, f.control.command, f.control.pf, command, f.info) == e
    ensures !f.control.U? ==> ReceiveNumbered(e, f, command, now) == e
  {
  }

  lemma ReleasedEvent(e: End, event: T.Event)
    requires e.state.Released?
    ensures var e' := T.After(e, event);
      e'.state.Released? && e'.queue == e.queue && e'.sent == e.sent && e'.received == e.received
  {
    hide Parse, Expire, NextFrame, ReceiveUnnumbered, ReceiveNumbered;
    match event
    case Sends(bytes) =>
    case Transmits(now) =>
      ExpireReleased(e, now);
      NextKeepsSent(e, now);
    case Hears(bytes, now) =>
      ExpireReleased(e, now);
      var e1 := Expire(e, now);
      match Parse(bytes) {
        case Ok(f) => ReleasedHears(e1, f, f.cr == !e1.originate, now);
        case _ =>
      }
  }

  lemma EventEmpties(e: End, event: T.Event)
    requires e.state.Released? ==> Empty(e)
    ensures var e' := T.After(e, event); e'.state.Released? ==> Empty(e')
  {
    hide Receive, NextFrame, Expire;
    if e.state.Released? {
      ReleasedEvent(e, event);
    } else {
      match event
      case Sends(bytes) =>
      case Transmits(now) =>
        ExpireEmpties(e, now);
        NextKeepsSent(e, now);
      case Hears(bytes, now) => ReceiveEmpties(e, bytes, now);
    }
  }

  lemma NextKeepsSent(e: End, now: int)
    ensures var e1, e' := Expire(e, now), NextFrame(e, now).0;
      && e'.state == e1.state
      && (e1.state.Released? ==> e'.queue == e1.queue && e'.sent == e1.sent && e'.received == e1.received)
  {
    hide Expire, NextNumbered, SameTerms, Plain;
    NextLeaves(e, now);
  }

  lemma {:induction false} LifeEmpties(e: End, events: seq<T.Event>)
    requires e.state.Released? ==> Empty(e)
    ensures var e' := T.Life(e, events); e'.state.Released? ==> Empty(e')
    ensures e.state.Released? ==> T.Life(e, events).state.Released? && T.Life(e, events).received == e.received
    decreases |events|
  {
    hide T.After, Empty;
    if events != [] {
      EventEmpties(e, events[0]);
      if e.state.Released? {
        ReleasedEvent(e, events[0]);
      }
      LifeEmpties(T.After(e, events[0]), events[1..]);
    }
  }

  /**
   * In every life an end that has released keeps nothing to send, takes no more data and delivers none, and nothing
   * that it hears brings it back.
   */
  lemma ReleasedForGood(
      t401: nat, start: int, offer: Option<Directions>, originate: bool, before: seq<T.Event>, events: seq<T.Event>)
    ensures var e := T.Life(if originate then Originator(t401, offer) else Answerer(t401, start, offer), before);
      var e' := T.Life(e, events);
      e.state.Released? ==> e'.state.Released? && Empty(e') && e'.received == e.received
  {
    hide T.Life, Empty, XidField.Bytes, OwnXid;
    var e := if originate then Originator(t401, offer) else Answerer(t401, start, offer);
    LifeEmpties(e, before);
    LifeEmpties(T.Life(e, before), events);
  }
}
