/** What both ends have settled on once they are connected, and keep when they release. */
module LapmSettled {
  import opened Prelude
  import opened LapmFrame
  import XidField
  import opened Negotiation
  import opened Lapm
  import opened LapmPair
  import opened LapmRun

  /** The end is connected, or has been, with `agreed` for its compression. */
  predicate Settled(e: End, agreed: Option<Directions>) {
    (e.state.Connected? || e.state.Released?) && e.compression == agreed
  }

  lemma ReleaseSettles(e: End, agreed: Option<Directions>)
    requires Settled(e, agreed)
    ensures Settled(Release(e), agreed)
  {
  }

  lemma ExpireSettles(e: End, now: int, agreed: Option<Directions>)
    requires Settled(e, agreed)
    ensures Settled(Expire(e, now), agreed)
  {
    hide Expire;
    ExpireLeaves(e, now);
  }

  lemma TransmitSettles(e: End, now: int, agreed: Option<Directions>)
    requires Settled(e, agreed)
    ensures Settled(NextFrame(e, now).0, agreed)
  {
    hide Expire, NextFrame;
    ExpireSettles(e, now, agreed);
    NextLeaves(e, now);
  }

  /** An XID command heard on a connection adopts the far end's limits but not its compression. */
  lemma XidSettles(e: End, info: Octets, agreed: Option<Directions>)
    requires Settled(e, agreed) && e.state.Connected?
    ensures Settled(XidCommand(e, info), agreed)
  {
    hide XidField.Parse, XidField.Bytes, Answer, N401Of, KOf, UnnumberedFrame;
  }

  lemma BreakSettles(e: End, pf: bool, info: Octets, agreed: Option<Directions>)
    requires Settled(e, agreed)
    ensures Settled(BreakSignal(e, pf, info), agreed)
  {
    hide UnnumberedFrame;
  }

  lemma RespondSettles(e: End, kind: Unnumbered, pf: bool, info: Octets, agreed: Option<Directions>)
    requires Settled(e, agreed)
    ensures Settled(Respond(e, kind, pf, info), agreed)
  {
  }

  lemma UnnumberedSettles(
      e: End, kind: Unnumbered, pf: bool, command: bool, info: Octets, agreed: Option<Directions>)
    requires Settled(e, agreed)
    ensures Settled(ReceiveUnnumbered(e, kind, pf, command, info), agreed)
  {
    hide XidCommand, XidResponse, BreakSignal, Release, Respond, Connect;
    if e.state.Connected? {
      XidSettles(e, info, agreed);
      BreakSettles(e, pf, info, agreed);
      ReleaseSettles(e, agreed);
      RespondSettles(e, Ua, pf, [], agreed);
      RespondSettles(e, Dm, pf, [], agreed);
      ReleaseSettles(Respond(e, Ua, pf, []), agreed);
    }
  }

  lemma NumberedSettles(e: End, frame: Frame, command: bool, now: int, agreed: Option<Directions>)
    requires !frame.control.U? && Settled(e, agreed)
    ensures Settled(ReceiveNumbered(e, frame, command, now), agreed)
  {
    hide ReceiveNumbered;
    NumberedLeaves(e, frame, command, now);
  }

  /** Whatever octets arrive at an end that was connected, it keeps what it settled on. */
  lemma ReceiveSettles(e0: End, bytes: Octets, now: int, agreed: Option<Directions>)
    requires Settled(e0, agreed)
    ensures Settled(Receive(e0, bytes, now), agreed)
  {
    hide Expire, ReceiveUnnumbered, ReceiveNumbered, Release, Parse;
    ExpireSettles(e0, now, agreed);
    var e := Expire(e0, now);
    ReleaseSettles(e, agreed);
    match Parse(bytes)
    case Ok(frame) =>
      var command := frame.cr == !e.originate;
      if frame.control.U? {
        UnnumberedSettles(e, frame.control.command, frame.control.pf, command, frame.info, agreed);
      } else {
        NumberedSettles(e, frame, command, now, agreed);
      }
    case _ =>
  }

  ghost predicate BothSettled(s: Pair, agreed: Option<Directions>, agreed': Option<Directions>) {
    Settled(s.caller.end, agreed) && Settled(s.called.end, agreed')
  }

  lemma ActSettles(s: Pair, a: Action, agreed: Option<Directions>, agreed': Option<Directions>)
    requires BothSettled(s, agreed, agreed')
    ensures BothSettled(Act(s, a), agreed, agreed')
  {
    hide NextFrame, Receive, Expire;
    var x, y := if a.side.Caller? then s.caller else s.called, if a.side.Caller? then s.called else s.caller;
    var mine := if a.side.Caller? then agreed else agreed';
    match a
    case Transmit(_, now) => TransmitSettles(x.end, now, mine);
    case Arrive(_, now) =>
      if y.out != [] {
        ReceiveSettles(x.end, Bytes(y.out[0].frame), now, mine);
      }
    case _ =>
  }

  lemma {:induction false} RunSettles(
      s: Pair, actions: seq<Action>, agreed: Option<Directions>, agreed': Option<Directions>)
    requires BothSettled(s, agreed, agreed')
    ensures BothSettled(Run(s, actions), agreed, agreed')
    decreases |actions|
  {
    hide Act, BothSettled;
    if actions != [] {
      ActSettles(s, actions[0], agreed, agreed');
      RunSettles(Act(s, actions[0]), actions[1..], agreed, agreed');
    }
  }

  ghost predicate BothConnected(s: Pair) {
    s.caller.end.state.Connected? && s.called.end.state.Connected?
  }

  /** A run in which both ends were connected at some time, whatever became of them since. */
  ghost predicate WereConnected(s: Pair, offer: Option<Directions>, offer': Option<Directions>) {
    exists before: Pair, actions: seq<Action> ::
      Reachable(before, offer, offer') && BothConnected(before) && s == Run(before, actions)
  }

  lemma {:induction false} RunsOn(s: Pair, a: seq<Action>, b: seq<Action>)
    ensures Run(Run(s, a), b) == Run(s, a + b)
    decreases |a|
  {
    hide Act;
    if a == [] {
      assert a + b == b;
    } else {
      RunsOn(Act(s, a[0]), a[1..], b);
      assert (a + b)[1..] == a[1..] + b;
    }
  }

  lemma ReachesOn(s: Pair, offer: Option<Directions>, offer': Option<Directions>, actions: seq<Action>)
    requires Reachable(s, offer, offer')
    ensures Reachable(Run(s, actions), offer, offer')
  {
    hide Run, Start;
    var t401: nat, t401': nat, now: int, before: seq<Action> :|
      s == Run(Start(t401, offer, t401', now, offer'), before);
    RunsOn(Start(t401, offer, t401', now, offer'), before, actions);
  }

  /** From when both ends are connected on, also once either has released, they hold what both offered, mirrored. */
  lemma StaysNegotiated(s: Pair, offer: Option<Directions>, offer': Option<Directions>)
    requires ValidOffer(offer) && ValidOffer(offer') && WereConnected(s, offer, offer')
    ensures Reachable(s, offer, offer')
    ensures BothSettled(s, Agreement(offer, offer'), Mirrored(Agreement(offer, offer')))
  {
    hide Reachable, Run, Agreement, Mirrored;
    var before: Pair, actions: seq<Action> :|
      Reachable(before, offer, offer') && BothConnected(before) && s == Run(before, actions);
    NegotiatesAlike(before, offer, offer');
    RunSettles(before, actions, Agreement(offer, offer'), Mirrored(Agreement(offer, offer')));
    ReachesOn(before, offer, offer', actions);
  }
}
