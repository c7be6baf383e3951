/** How the XID of the far end limits all that an end sends in its life. */
module LapmLimits {
  import opened Prelude
  import opened Arithmetic
  import opened LapmFrame
  import opened Lapm
  import opened LapmRun
  import opened Negotiation
  import XidField
  import T = LapmTimers

  /** What an XID declares, or the default for what it leaves out, kept within 1 and the most there may be. */
  function Declared(value: Option<int>, standard: nat, most: nat): nat
    requires most >= 1
  {
    match value
    case None => standard
    case Some(v) => if v < 1 then 1 else Min(v, most)
  }

  /** The longest I frame and the largest window for the direction to the sender of the XID. */
  function LongestTo(x: XidField.Xid): nat {
    Declared(x.n401Rx, 128, 2048)
  }

  function WindowTo(x: XidField.Xid): nat {
    Declared(x.kRx, 15, 127)
  }

  /** And for the direction from it. */
  function LongestFrom(x: XidField.Xid): nat {
    Declared(x.n401Tx, 128, 2048)
  }

  function WindowFrom(x: XidField.Xid): nat {
    Declared(x.kTx, 15, 127)
  }

  // What keeps within limits.

  predicate Fits(sent: seq<Octets>, n: nat, k: nat) {
    |sent| <= k && forall i :: 0 <= i < |sent| ==> |sent[i]| <= n
  }

  predicate Bounded(e: End, n: nat, k: nat) {
    e.n401 == n && e.k == k && (e.state.Connected? ==> Fits(e.sent, n, k))
  }

  /** No I frame is among what is urgent. */
  predicate NoneNumbered(e: End) {
    forall i :: 0 <= i < |e.urgent| ==> e.urgent[i].0.control.U?
  }

  /** The I frame that the end would send now, and what it has unacknowledged. */
  predicate Within(e: End, now: int, n: nat, k: nat) {
    var frame := NextFrame(e, now).1;
    && (frame.Some? && frame.value.control.I? ==> |frame.value.info| <= n)
    && (e.state.Connected? ==> |e.sent| <= k)
  }

  predicate IsXid(bytes: Octets) {
    var parsed := Parse(bytes);
    parsed.Ok? && parsed.frame.control.U? && parsed.frame.control.command == Xid
  }

  predicate NoXid(events: seq<T.Event>) {
    forall event :: event in events && event.Hears? ==> !IsXid(event.bytes)
  }

  lemma RetryBounded(e: End, n: nat, k: nat)
    requires Bounded(e, n, k) && !e.state.Connected?
    ensures Bounded(Retry(e), n, k)
  {
    hide Fits, UnnumberedFrame, XidField.Bytes, OwnXid;
  }

  lemma RecoverBounded(e: End, n: nat, k: nat)
    requires Bounded(e, n, k)
    ensures Bounded(Recover(e), n, k) && Bounded(Release(e), n, k) && Bounded(e.(timer := None), n, k)
  {
    hide Fits;
  }

  lemma ExpireBounded(e: End, n: nat, k: nat, now: int)
    requires Bounded(e, n, k)
    ensures Bounded(Expire(e, now), n, k)
  {
    hide Retry, Recover, Release, Bounded;
    RecoverBounded(e, n, k);
    if !e.state.Connected? {
      RetryBounded(e, n, k);
    }
  }

  lemma OneMore(e: End, e': End, f: Frame, timed: bool)
    requires NoneNumbered(e) && f.control.U? && e'.urgent == e.urgent + [(f, timed)]
    ensures NoneNumbered(e')
  {
  }

  lemma FewerUrgent(e: End, e': End)
    requires NoneNumbered(e) && (e'.urgent == e.urgent || (e.urgent != [] && e'.urgent == e.urgent[1..]))
    ensures NoneNumbered(e')
  {
  }

  lemma ExpireNumbers(e: End, now: int)
    requires NoneNumbered(e)
    ensures NoneNumbered(Expire(e, now))
  {
    hide Expire, NoneNumbered, SameTerms, XidField.Bytes;
    ExpireLeaves(e, now);
    var e' := Expire(e, now);
    if |e'.urgent| > |e.urgent| {
      var (f, timed) := e'.urgent[|e.urgent|];
      OneMore(e, e', f, timed);
    } else {
      FewerUrgent(e, e');
    }
  }

  lemma PieceFits(sent: seq<Octets>, piece: Octets, n: nat, k: nat)
    requires Fits(sent, n, k) && |sent| < k && |piece| <= n
    ensures Fits(sent + [piece], n, k)
  {
  }

  lemma LoadedFits(e: End, n: nat, k: nat)
    requires Bounded(e, n, k) && e.state.Connected? && MaySendData(e)
    ensures var e' := Loaded(e); Bounded(e', n, k) && e'.state.Connected?
  {
    hide Fits, Lapm.After;
    var piece := e.queue[..Min(|e.queue|, e.n401)];
    FitsIs(e.sent, n, k);
    if |e.sent| < e.k {
      PieceFits(e.sent, piece, n, k);
    }
  }

  lemma FitsIs(sent: seq<Octets>, n: nat, k: nat)
    requires Fits(sent, n, k)
    ensures |sent| <= k
  {
  }

  lemma IFrameFits(e: End, n: nat, k: nat, now: int)
    requires Bounded(e, n, k) && e.state.Connected?
    ensures var (e', frame) := NextIFrame(e, now);
      Bounded(e', n, k) && (frame.Some? ==> |frame.value.info| <= n)
  {
    hide Loaded, MaySendData, Lapm.After;
    if MaySendData(e) {
      LoadedFits(e, n, k);
    }
  }

  lemma NumberedFits(e: End, n: nat, k: nat, now: int)
    requires Bounded(e, n, k) && e.state.Connected?
    ensures var (e', frame) := NextNumbered(e, now);
      Bounded(e', n, k) && (frame.Some? && frame.value.control.I? ==> |frame.value.info| <= n)
  {
    hide NextIFrame, Paid, Polls, Fits;
    IFrameFits(e, n, k, now);
  }

  lemma NextFits(e0: End, n: nat, k: nat, now: int)
    requires Bounded(e0, n, k) && NoneNumbered(e0)
    ensures Bounded(NextFrame(e0, now).0, n, k) && NoneNumbered(NextFrame(e0, now).0)
    ensures Within(e0, now, n, k)
  {
    hide Expire, NextNumbered, Fits, SameTerms, Plain;
    ExpireBounded(e0, n, k, now);
    ExpireNumbers(e0, now);
    NextLeaves(e0, now);
    var e := Expire(e0, now);
    if e.state.Connected? {
      NumberedFits(e, n, k, now);
    }
    if e0.state.Connected? {
      FitsIs(e0.sent, n, k);
    }
  }

  lemma AcknowledgeFits(e: End, n: nat, k: nat, nr: Seven, now: int)
    requires Bounded(e, n, k) && e.state.Connected?
    ensures Bounded(Acknowledge(e, nr, now).0, n, k)
  {
    hide Lapm.After;
  }

  lemma PartsFit(e: End, n: nat, k: nat, ns: Seven, poll: bool, info: Octets)
    requires Bounded(e, n, k)
    ensures Bounded(Informed(e, ns, poll, info), n, k) && Bounded(Release(e), n, k)
    ensures Bounded(Connect(e), n, k)
  {
  }

  lemma SupervisedFits(e: End, n: nat, k: nat, kind: Supervisory, nr: Seven, pf: bool, command: bool, now: int)
    requires Bounded(e, n, k)
    ensures Bounded(Supervised(e, kind, nr, pf, command, now), n, k)
  {
    hide Fits;
  }

  lemma NumberedBounded(e0: End, n: nat, k: nat, f: Frame, command: bool, now: int)
    requires Bounded(e0, n, k) && !f.control.U?
    ensures Bounded(ReceiveNumbered(e0, f, command, now), n, k)
  {
    hide Acknowledge, Informed, Supervised, Connect, Release, Bounded;
    PartsFit(e0, n, k, 0, false, []);
    var e := if e0.state.Establishing? then Connect(e0) else e0;
    PartsFit(e, n, k, 0, false, []);
    if e.state.Connected? {
      AcknowledgeFits(e, n, k, f.control.nr, now);
      var e1 := Acknowledge(e, f.control.nr, now).0;
      match f.control
      case I(ns, nr, poll) => PartsFit(e1, n, k, ns, poll, f.info);
      case S(kind, nr, pf) =>
        PartsFit(e1, n, k, 0, false, []);
        SupervisedFits(e1, n, k, kind, nr, pf, command, now);
    }
  }

  lemma RespondBounded(e: End, n: nat, k: nat, kind: Unnumbered, pf: bool, info: Octets)
    requires Bounded(e, n, k)
    ensures Bounded(Respond(e, kind, pf, info), n, k)
  {
    hide UnnumberedFrame, Fits;
  }

  lemma BreakBounded(e: End, n: nat, k: nat, pf: bool, info: Octets)
    requires Bounded(e, n, k)
    ensures Bounded(BreakSignal(e, pf, info), n, k)
  {
    hide UnnumberedFrame, Fits;
  }

  lemma UnnumberedBounded(e: End, n: nat, k: nat, kind: Unnumbered, pf: bool, command: bool, info: Octets)
    requires Bounded(e, n, k) && kind != Xid
    ensures Bounded(ReceiveUnnumbered(e, kind, pf, command, info), n, k)
  {
    hide XidCommand, XidResponse, BreakSignal, Connect, Release, Respond, Bounded;
    BreakBounded(e, n, k, pf, info);
    PartsFit(e, n, k, 0, false, []);
    RespondBounded(Connect(e), n, k, Ua, pf, []);
    RespondBounded(e, n, k, Ua, pf, []);
    RespondBounded(e, n, k, Dm, pf, []);
    PartsFit(Respond(e, Ua, pf, []), n, k, 0, false, []);
  }

  lemma ReceiveBounded(e0: End, n: nat, k: nat, bytes: Octets, now: int)
    requires Bounded(e0, n, k) && !IsXid(bytes)
    ensures Bounded(Receive(e0, bytes, now), n, k)
  {
    hide Expire, ReceiveNumbered, ReceiveUnnumbered, Parse, Bounded, Release;
    ExpireBounded(e0, n, k, now);
    var e := Expire(e0, now);
    PartsFit(e, n, k, 0, false, []);
    match Parse(bytes)
    case Ok(f) =>
      var command := f.cr == !e.originate;
      if f.control.U? {
        UnnumberedBounded(e, n, k, f.control.command, f.control.pf, command, f.info);
      } else {
        NumberedBounded(e, n, k, f, command, now);
      }
    case _ =>
  }

  // What is urgent is never numbered.

  lemma RespondNumbers(e: End, kind: Unnumbered, pf: bool, info: Octets)
    requires NoneNumbered(e)
    ensures NoneNumbered(Respond(e, kind, pf, info))
  {
    hide NoneNumbered;
    OneMore(e, Respond(e, kind, pf, info), UnnumberedFrame(e, false, kind, pf, info), false);
  }

  lemma SameUrgent(e: End, e': End)
    requires NoneNumbered(e) && e'.urgent == e.urgent
    ensures NoneNumbered(e')
  {
  }

  lemma AgreeUrgent(e: End, theirs: XidField.Xid)
    ensures Agree(e, theirs).Some? ==> Agree(e, theirs).value.0.urgent == e.urgent
  {
    hide Answer, N401Of, KOf;
  }

  lemma XidCommandNumbers(e: End, info: Octets)
    requires NoneNumbered(e)
    ensures NoneNumbered(XidCommand(e, info))
  {
    hide XidField.Parse, XidField.Bytes, Agree, NoneNumbered, Respond;
    SameUrgent(e, Release(e));
    match XidField.Parse(info)
    case None =>
    case Some(theirs) =>
      AgreeUrgent(e, theirs);
      match Agree(e, theirs)
      case None =>
      case Some((e1, ours)) =>
        SameUrgent(e, e1);
        RespondNumbers(e1, Xid, false, XidField.Bytes(ours));
  }

  lemma XidResponseNumbers(e: End, info: Octets)
    requires NoneNumbered(e)
    ensures NoneNumbered(XidResponse(e, info))
  {
    hide XidField.Parse, Conclude, NoneNumbered, N401Of, KOf;
    SameUrgent(e, Release(e));
    var e' := XidResponse(e, info);
    if |e'.urgent| > |e.urgent| {
      OneMore(e, e', e'.urgent[|e.urgent|].0, true);
    } else {
      SameUrgent(e, e');
    }
  }

  lemma BreakNumbers(e: End, pf: bool, info: Octets)
    requires NoneNumbered(e)
    ensures NoneNumbered(BreakSignal(e, pf, info))
  {
    hide NoneNumbered;
    var e' := BreakSignal(e, pf, info);
    if |e'.urgent| > |e.urgent| {
      OneMore(e, e', e'.urgent[|e.urgent|].0, false);
    } else {
      SameUrgent(e, e');
    }
  }

  lemma UnnumberedNumbers(e: End, kind: Unnumbered, pf: bool, command: bool, info: Octets)
    requires NoneNumbered(e)
    ensures NoneNumbered(ReceiveUnnumbered(e, kind, pf, command, info))
  {
    hide XidCommand, XidResponse, BreakSignal, NoneNumbered, Respond, UnnumberedFrame;
    XidCommandNumbers(e, info);
    XidResponseNumbers(e, info);
    BreakNumbers(e, pf, info);
    SameUrgent(e, Connect(e));
    SameUrgent(e, Release(e));
    RespondNumbers(Connect(e), Ua, pf, []);
    RespondNumbers(e, Ua, pf, []);
    RespondNumbers(e, Dm, pf, []);
    SameUrgent(Respond(e, Ua, pf, []), Release(Respond(e, Ua, pf, [])));
  }

  lemma ReceiveNumbers(e0: End, bytes: Octets, now: int)
    requires NoneNumbered(e0)
    ensures NoneNumbered(Receive(e0, bytes, now))
  {
    hide Expire, ReceiveNumbered, ReceiveUnnumbered, Parse, NoneNumbered, Release, SameTerms;
    ExpireNumbers(e0, now);
    var e := Expire(e0, now);
    ReleaseLeaves(e, e, e.urgent);
    SameUrgent(e, Release(e));
    match Parse(bytes)
    case Ok(f) =>
      var command := f.cr == !e.originate;
      if f.control.U? {
        UnnumberedNumbers(e, f.control.command, f.control.pf, command, f.info);
      } else {
        NumberedLeaves(e, f, command, now);
        SameUrgent(e, ReceiveNumbered(e, f, command, now));
      }
    case _ =>
  }

  // Every life.

  lemma {:induction false} LifeNumbers(e: End, events: seq<T.Event>)
    requires NoneNumbered(e)
    ensures NoneNumbered(T.Life(e, events))
    decreases |events|
  {
    hide NoneNumbered, NextFrame, Receive, Plain, SameTerms;
    if events != [] {
      match events[0] {
        case Sends(bytes) => SameUrgent(e, Send(e, bytes));
        case Transmits(now) => NextNumbers(e, now);
        case Hears(bytes, now) => ReceiveNumbers(e, bytes, now);
      }
      LifeNumbers(T.After(e, events[0]), events[1..]);
    }
  }

  lemma NextNumbers(e: End, now: int)
    requires NoneNumbered(e)
    ensures NoneNumbered(NextFrame(e, now).0)
  {
    hide NoneNumbered, NextFrame, Expire, Plain, SameTerms;
    ExpireNumbers(e, now);
    NextLeaves(e, now);
    FewerUrgent(Expire(e, now), NextFrame(e, now).0);
  }

  lemma {:induction false} LifeBounded(e: End, n: nat, k: nat, events: seq<T.Event>)
    requires Bounded(e, n, k) && NoneNumbered(e) && NoXid(events)
    ensures Bounded(T.Life(e, events), n, k) && NoneNumbered(T.Life(e, events))
    decreases |events|
  {
    hide NoneNumbered, NextFrame, Receive, Fits, IsXid;
    if events != [] {
      match events[0] {
        case Sends(bytes) => SameUrgent(e, Send(e, bytes));
        case Transmits(now) => NextFits(e, n, k, now);
        case Hears(bytes, now) =>
          assert events[0] in events;
          ReceiveNumbers(e, bytes, now);
          ReceiveBounded(e, n, k, bytes, now);
      }
      assert forall event :: event in events[1..] ==> event in events;
      LifeBounded(T.After(e, events[0]), n, k, events[1..]);
    }
  }

  /** The end keeps within its limits from now on, whatever it is given and told but an XID. */
  ghost predicate StaysWithin(e: End, n: nat, k: nat) {
    forall events: seq<T.Event>, now: int :: NoXid(events) ==> Within(T.Life(e, events), now, n, k)
  }

  lemma BoundedStaysWithin(e: End, n: nat, k: nat)
    requires Bounded(e, n, k) && NoneNumbered(e)
    ensures StaysWithin(e, n, k)
  {
    hide Bounded, NoneNumbered, NoXid, Within;
    forall events: seq<T.Event>, now: int | NoXid(events) ensures Within(T.Life(e, events), now, n, k) {
      LifeBounded(e, n, k, events);
      NextFits(T.Life(e, events), n, k, now);
    }
  }

  // When the limits come too late.

  function Back(e: End, i: nat): Frame {
    Frame(e.originate, S(Rej, (e.va + i) % MODULUS, true), [])
  }

  /** V(S) is at V(A), and there is something to send again from there. */
  predicate GoesBack(e: End, now: int) {
    && e.state.Connected? && !e.recovery && !e.peerBusy && e.vs == e.va && e.sent != []
    && (e.timer.None? || now < e.timer.value)
  }

  lemma AfterAdds(a: Seven, i: nat)
    requires i < MODULUS
    ensures Lapm.After((a + i) % MODULUS, a) == i
  {
  }

  lemma AcknowledgesTo(e: End, i: nat, now: int)
    requires e.state.Connected? && i < |e.sent| && i < MODULUS
    ensures var (e', valid) := Acknowledge(e, (e.va + i) % MODULUS, now);
      && valid && e'.sent == e.sent[i..] && e'.va == (e.va + i) % MODULUS && e'.state.Connected?
      && e'.urgent == e.urgent && e'.owed == e.owed && e'.recovery == e.recovery && SameTerms(e, e')
  {
    hide Lapm.After;
    AfterAdds(e.va, i);
  }

  lemma SupervisedGoesBack(e: End, nr: Seven, now: int)
    requires e.va == nr && e.state.Connected? && e.sent != []
    ensures var e' := Supervised(e, Rej, nr, true, false, now);
      GoesBack(e', now) && e'.sent == e.sent && e'.urgent == e.urgent
  {
  }

  lemma HearsBack(e: End, i: nat, now: int)
    requires e.state.Connected? && i < |e.sent| && i < MODULUS && (e.timer.None? || now < e.timer.value)
    ensures var e' := Receive(e, Bytes(Back(e, i)), now);
      GoesBack(e', now) && e'.sent == e.sent[i..] && e'.urgent == e.urgent
    ensures !IsXid(Bytes(Back(e, i)))
  {
    hide Parse, Bytes, Acknowledge, Supervised, Retry, Recover;
    ParsesBytes(Back(e, i));
    AcknowledgesTo(e, i, now);
    SupervisedGoesBack(Acknowledge(e, (e.va + i) % MODULUS, now).0, (e.va + i) % MODULUS, now);
  }

  lemma SendsAgain(e: End, now: int)
    requires GoesBack(e, now) && e.urgent == [] && !Owes(e.owed)
    ensures var frame := NextFrame(e, now).1; frame.Some? && frame.value.control.I? && frame.value.info == e.sent[0]
  {
    hide Retry, Recover, Owes;
  }

  lemma SendsBefore(e: End, now: int)
    requires GoesBack(e, now) && (e.urgent != [] || Owes(e.owed))
    ensures var e' := NextFrame(e, now).0;
      && GoesBack(e', now - 1) && e'.sent == e.sent && |e'.urgent| + T.Owing(e'.owed) < |e.urgent| + T.Owing(e.owed)
  {
    hide Retry, Recover, T.Owing, Paid, NextIFrame, OwedFrame;
    if e.urgent == [] {
      T.PaidIsLess(e.owed);
    }
  }

  /** After what is urgent and owed, the I frame at V(A) goes out again. */
  lemma SendsSoon(e: End, now: int) returns (events: seq<T.Event>, at: int)
    requires GoesBack(e, now)
    ensures NoXid(events)
    ensures var frame := NextFrame(T.Life(e, events), at).1;
      frame.Some? && frame.value.control.I? && frame.value.info == e.sent[0]
    decreases |e.urgent| + T.Owing(e.owed)
  {
    hide GoesBack, NextFrame, Owes, T.Owing;
    if e.urgent == [] && !Owes(e.owed) {
      events, at := [], now;
      SendsAgain(e, now);
    } else {
      SendsBefore(e, now);
      var e' := NextFrame(e, now).0;
      var rest;
      rest, at := SendsSoon(e', now - 1);
      events := [T.Transmits(now)] + rest;
      LivesOn(e, T.Transmits(now), rest);
    }
  }

  lemma LivesOn(e: End, event: T.Event, rest: seq<T.Event>)
    ensures T.Life(e, [event] + rest) == T.Life(T.After(e, event), rest)
  {
    hide T.After;
    assert ([event] + rest)[1..] == rest;
  }

  /** An I frame that is too long already may still be sent again. */
  lemma TooLongIsSent(e: End, n: nat, k: nat, i: nat)
    requires e.state.Connected? && i < |e.sent| && i < MODULUS && |e.sent[i]| > n
    ensures !StaysWithin(e, n, k)
  {
    hide NextFrame, Receive, GoesBack, Bytes, IsXid;
    var now := if e.timer.Some? then e.timer.value - 1 else 0;
    HearsBack(e, i, now);
    var e1 := Receive(e, Bytes(Back(e, i)), now);
    var rest, at := SendsSoon(e1, now);
    var event := T.Hears(Bytes(Back(e, i)), now);
    LivesOn(e, event, rest);
    assert NoXid([event] + rest);
    assert !Within(T.Life(e, [event] + rest), at, n, k);
  }

  /** An end keeps within its limits for ever exactly if what it has unacknowledged does already. */
  lemma StaysWithinExactly(e: End, n: nat, k: nat)
    requires e.n401 == n && e.k == k <= 127 && NoneNumbered(e)
    ensures StaysWithin(e, n, k) <==> (e.state.Connected? ==> Fits(e.sent, n, k))
  {
    hide StaysWithin, NoneNumbered;
    if e.state.Connected? && !Fits(e.sent, n, k) {
      if |e.sent| > k {
        TooManyAlready(e, n, k);
      } else {
        var i :| 0 <= i < |e.sent| && |e.sent[i]| > n;
        TooLongIsSent(e, n, k, i);
      }
    } else {
      BoundedStaysWithin(e, n, k);
    }
  }

  lemma TooManyAlready(e: End, n: nat, k: nat)
    requires e.state.Connected? && |e.sent| > k
    ensures !StaysWithin(e, n, k)
  {
    hide NextFrame;
    assert NoXid([]) && T.Life(e, []) == e;
    assert !Within(T.Life(e, []), 0, n, k);
  }

  // What an XID sets.

  lemma ClampsDeclared(x: XidField.Xid)
    ensures N401Of(x.n401Rx) == LongestTo(x) && KOf(x.kRx) == WindowTo(x)
    ensures N401Of(x.n401Tx) == LongestFrom(x) && KOf(x.kTx) == WindowFrom(x)
    ensures 1 <= WindowTo(x) <= 127
  {
  }

  /** The XID of the far end is one that this end takes: a command, or the reply that a caller negotiates for. */
  predicate Takes(e: End, f: Frame) {
    && f.control.U? && f.control.command == Xid && XidField.Parse(f.info).Some?
    && !e.state.Released? && (f.cr == !e.originate || e.state.Negotiating?)
  }

  lemma AgreeSets(e: End, theirs: XidField.Xid)
    ensures var agreed := Agree(e, theirs);
      agreed.Some? ==>
        var (e', ours) := agreed.value;
        && e' == e.(compression := e'.compression, n401 := LongestTo(theirs), k := WindowTo(theirs))
        && ours.functions == 0
        && ours.n401Tx == Some(LongestTo(theirs)) && ours.kTx == Some(WindowTo(theirs))
        && ours.n401Rx == Some(LongestFrom(theirs)) && ours.kRx == Some(WindowFrom(theirs))
        && (ours.compression.Some? ==> ours.compression.value.directions < 4)
  {
    hide N401Of, KOf, LongestTo, WindowTo, LongestFrom, WindowFrom, Answer;
    ClampsDeclared(theirs);
    if theirs.compression.Some? {
      AnswersFew(e.offer, theirs.compression.value);
    }
  }

  lemma AnswersFew(offer: Option<Directions>, theirs: XidField.Compression)
    ensures Answer(offer, theirs).Ok? ==> Answer(offer, theirs).value.0.directions < 4
  {
    hide BitAnd;
    if offer.Some? {
      CommonIs(theirs.directions, Bit(offer.value.receive) * FROM_INITIATOR + Bit(offer.value.transmit) * TO_INITIATOR);
    }
  }

  /** The parameters of a reply are read back as they were written. */
  lemma ReplyReads(ours: XidField.Xid)
    requires ours.functions == 0 && (ours.compression.Some? ==> ours.compression.value.directions < 4)
    ensures XidField.Parse(XidField.Bytes(ours)) == Some(ours)
  {
    hide XidField.Parse, XidField.Bytes;
    NothingCommon();
    XidField.ParsesBytes(ours);
  }

  /** The reply to an XID command declares the limits it set for this end, and returns those that it declared itself. */
  predicate Replies(f: Frame, theirs: XidField.Xid) {
    var ours := XidField.Parse(f.info);
    && f.control == U(Xid, false) && ours.Some?
    && ours.value.n401Tx == Some(LongestTo(theirs)) && ours.value.kTx == Some(WindowTo(theirs))
    && ours.value.n401Rx == Some(LongestFrom(theirs)) && ours.value.kRx == Some(WindowFrom(theirs))
  }

  lemma CommandSets(e: End, info: Octets)
    requires XidField.Parse(info).Some?
    ensures var theirs, e' := XidField.Parse(info).value, XidCommand(e, info);
      !e'.state.Released? ==>
        && e'.state == e.state && e'.sent == e.sent && e'.n401 == LongestTo(theirs) && e'.k == WindowTo(theirs)
        && |e'.urgent| == |e.urgent| + 1 && e'.urgent[..|e.urgent|] == e.urgent
        && e'.urgent[|e.urgent|].0.cr == !e.originate && Replies(e'.urgent[|e.urgent|].0, theirs)
  {
    hide XidField.Parse, XidField.Bytes, Agree, LongestTo, WindowTo, LongestFrom, WindowFrom;
    var theirs := XidField.Parse(info).value;
    AgreeSets(e, theirs);
    if Agree(e, theirs).Some? {
      ReplyReads(Agree(e, theirs).value.1);
    }
  }

  lemma SabmeSets(e: End, theirs: XidField.Xid, agreed: Option<Directions>)
    ensures var e' := SendSabme(Adopted(e, theirs, agreed).(state := Establishing, retries := 0, timer := None));
      e'.state.Establishing? && e'.n401 == LongestTo(theirs) && e'.k == WindowTo(theirs)
  {
    hide N401Of, KOf, LongestTo, WindowTo, UnnumberedFrame;
    ClampsDeclared(theirs);
  }

  lemma ResponseSets(e: End, info: Octets)
    requires XidField.Parse(info).Some? && !e.state.Connected?
    ensures var theirs, e' := XidField.Parse(info).value, XidResponse(e, info);
      !e'.state.Released? ==>
        !e'.state.Connected? && e'.n401 == LongestTo(theirs) && e'.k == WindowTo(theirs)
  {
    hide XidField.Parse, Adopted, LongestTo, WindowTo, Conclude, SendSabme;
    var theirs := XidField.Parse(info).value;
    match (if e.offer.None? then Negotiation.Ok(None) else Conclude(e.offer.value, theirs.compression))
    case ProceduralError =>
    case Ok(agreed) => SabmeSets(e, theirs, agreed);
  }

  lemma XidSets(e0: End, f: Frame, now: int)
    requires Takes(Expire(e0, now), f)
    ensures var e, e', theirs := Expire(e0, now), Receive(e0, Bytes(f), now), XidField.Parse(f.info).value;
      !e'.state.Released? ==>
        && e'.n401 == LongestTo(theirs) && e'.k == WindowTo(theirs)
        && (e'.state.Connected? ==> e.state.Connected? && e'.sent == e.sent)
        && (e.state.Connected? ==> e'.state.Connected?)
        && (f.cr == !e.originate ==>
          |e'.urgent| > |e.urgent| && e'.urgent[..|e.urgent|] == e.urgent && Replies(e'.urgent[|e.urgent|].0, theirs))
  {
    hide Expire, Parse, Bytes, XidField.Parse, XidField.Bytes, XidCommand, XidResponse, LongestTo, WindowTo, Replies;
    ParsesBytes(f);
    var e := Expire(e0, now);
    CommandSets(e, f.info);
    if e.state.Negotiating? {
      ResponseSets(e, f.info);
    }
  }

  /**
   * Whatever octets an XID command or reply has, its receive limits bind the end for the rest of its life, as long as
   * it hears no other XID: no I frame it sends is longer, and no more of them are unacknowledged. That is so for every
   * end that was not connected yet, and for a connected one exactly if what it had unacknowledged was within them.
   * The reply to a command says so.
   */
  lemma XidBinds(e0: End, f: Frame, now: int)
    requires NoneNumbered(e0) && Takes(Expire(e0, now), f)
    ensures var e, e', theirs := Expire(e0, now), Receive(e0, Bytes(f), now), XidField.Parse(f.info).value;
      !e'.state.Released? ==>
        && (StaysWithin(e', LongestTo(theirs), WindowTo(theirs))
          <==> (e.state.Connected? ==> Fits(e.sent, LongestTo(theirs), WindowTo(theirs))))
        && (f.cr == !e.originate ==>
          |e'.urgent| > |e.urgent| && e'.urgent[..|e.urgent|] == e.urgent && Replies(e'.urgent[|e.urgent|].0, theirs))
  {
    hide Expire, Receive, Bytes, XidField.Parse, LongestTo, WindowTo, Replies, StaysWithin, Takes, NoneNumbered;
    var e' := Receive(e0, Bytes(f), now);
    XidSets(e0, f, now);
    ReceiveNumbers(e0, Bytes(f), now);
    TakesParsed(Expire(e0, now), f);
    ClampsDeclared(XidField.Parse(f.info).value);
    if !e'.state.Released? {
      StaysWithinExactly(e', e'.n401, e'.k);
    }
  }

  lemma TakesParsed(e: End, f: Frame)
    requires Takes(e, f)
    ensures XidField.Parse(f.info).Some?
  {
  }

  /** What is urgent is unnumbered in every life, so what an XID binds is every end there is. */
  lemma LivesBind(t401: nat, start: int, offer: Option<Directions>, events: seq<T.Event>)
    ensures NoneNumbered(T.Life(Originator(t401, offer), events))
    ensures NoneNumbered(T.Life(Answerer(t401, start, offer), events))
  {
    hide T.Life, XidField.Bytes, OwnXid;
    LifeNumbers(Originator(t401, offer), events);
    LifeNumbers(Answerer(t401, start, offer), events);
  }
}
