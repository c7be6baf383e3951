/** Two LAPM ends joined by two channels that keep frames in order but may lose any of them. */
module LapmPair {
  import opened Prelude
  import opened LapmFrame
  import opened Negotiation
  import opened Lapm

  /**
   * A frame on its way, with what its sender knew without the modulus: the number of the I frame it is,
   * of the I frame it awaits, and of the I frames made so far.
   */
  datatype Packet = Packet(frame: Frame, ns: nat, nr: nat, hi: nat)

  /** One end, what it sends into, and its history: I frames made and accepted, octets given to it and taken from it. */
  datatype Half = Half(
    end: End,
    out: seq<Packet>,
    log: seq<Octets>,
    heard: nat,
    given: Octets,
    taken: Octets)

  /** All that the end ever had for its DTE, whether taken yet or not. */
  function Delivered(x: Half): Octets {
    x.taken + x.end.received
  }

  datatype Side = Caller | Called

  datatype Pair = Pair(caller: Half, called: Half)

  datatype Action =
    | Give(side: Side, bytes: Octets)
    | Take(side: Side)
    | Transmit(side: Side, now: int)
    | Arrive(side: Side, now: int)
    | Lose(side: Side, index: nat)

  function NewHalf(end: End): Half {
    Half(end, [], [], 0, [], [])
  }

  /** The originator has begun to negotiate, the answerer waits, and nothing is on its way. */
  function Start(t401: nat, offer: Option<Directions>, t401': nat, now: int, offer': Option<Directions>): Pair {
    Pair(NewHalf(Originator(t401, offer)), NewHalf(Answerer(t401', now, offer')))
  }

  function GiveTo(x: Half, bytes: Octets): Half {
    x.(end := Send(x.end, bytes), given := if x.end.state.Released? then x.given else x.given + bytes)
  }

  function TakeFrom(x: Half): Half {
    x.(end := x.end.(received := []), taken := x.taken + x.end.received)
  }

  function TransmitFrom(x: Half, now: int): Half {
    var (end, frame) := NextFrame(x.end, now);
    if frame.None? then x.(end := end)
    else
      var e := Expire(x.end, now);
      var number := if |e.sent| <= |x.log| then |x.log| - |e.sent| + Lapm.After(e.vs, e.va) else 0;
      var log := if frame.value.control.I? && number == |x.log| then x.log + [frame.value.info] else x.log;
      x.(end := end, log := log, out := x.out + [Packet(frame.value, number, x.heard, |log|)])
  }

  function Without(s: seq<Packet>, i: nat): seq<Packet> {
    if i < |s| then s[..i] + s[i + 1..] else s
  }

  /** The other end's next frame arrives. */
  function ArriveAt(y: Half, p: Packet, now: int): Half {
    var end := Receive(y.end, Bytes(p.frame), now);
    y.(end := end, heard := y.heard + Lapm.After(end.vr, y.end.vr))
  }

  function Act(s: Pair, a: Action): Pair {
    var x, y := if a.side.Caller? then s.caller else s.called, if a.side.Caller? then s.called else s.caller;
    var (x', y') :=
      match a
      case Give(_, bytes) => (GiveTo(x, bytes), y)
      case Take(_) => (TakeFrom(x), y)
      case Transmit(_, now) => (TransmitFrom(x, now), y)
      case Arrive(_, now) => if y.out == [] then (x, y) else (ArriveAt(x, y.out[0], now), y.(out := y.out[1..]))
      case Lose(_, i) => (x.(out := Without(x.out, i)), y);
    if a.side.Caller? then Pair(x', y') else Pair(y', x')
  }

  function Run(s: Pair, actions: seq<Action>): Pair
    decreases |actions|
  {
    if actions == [] then s else Run(Act(s, actions[0]), actions[1..])
  }

  // The invariant.

  /** What one end knows of itself: `sent` holds the I frames made from V(A) on, and the window is never overrun. */
  ghost predicate EndOk(x: Half) {
    var e := x.end;
    && |e.sent| <= 127 && 1 <= e.k <= 127 && e.n401 >= 1
    && e.vr == x.heard % 128
    && Flatten(x.log) <= x.given
    && (!e.state.Connected? && !e.state.Released? ==>
      x.log == [] && e.sent == [] && x.heard == 0 && e.vs == e.va == 0)
    && (e.state.Released? ==> e.sent == [])
    && (!e.state.Released? ==>
      && |e.sent| <= |x.log| && e.sent == x.log[|x.log| - |e.sent|..]
      && e.va == (|x.log| - |e.sent|) % 128
      && Lapm.After(e.vs, e.va) <= |e.sent|
      && Flatten(x.log) + e.queue == x.given)
  }

  /** The I frames that `x` knows arrived. */
  function Acked(x: Half): int {
    |x.log| - |x.end.sent|
  }

  /** A packet carries the I frame it is numbered as, or none. */
  ghost predicate Carries(p: Packet, log: seq<Octets>) {
    && p.hi <= |log|
    && (p.frame.control.I? ==>
      p.ns < p.hi <= p.ns + 127 && p.frame.control.ns == p.ns % 128 && p.frame.info == log[p.ns])
  }

  /** N(R) is the number the packet awaits, modulo 128. */
  predicate Awaits(p: Packet) {
    match p.frame.control
    case I(_, nr, _) => nr == p.nr % 128
    case S(_, nr, _) => nr == p.nr % 128
    case U(_, _) => true
  }

  ghost predicate DataFlies(out: seq<Packet>, log: seq<Octets>, heard: nat) {
    && (forall i :: 0 <= i < |out| ==> Carries(out[i], log) && heard <= out[i].hi <= heard + 127)
    && (forall i, j :: 0 <= i < j < |out| ==> out[i].hi <= out[j].hi)
  }

  ghost predicate AcksFly(out: seq<Packet>, heard: nat, acked: int) {
    && (forall i :: 0 <= i < |out| ==> Awaits(out[i]) && acked <= out[i].nr <= heard)
    && (forall i, j :: 0 <= i < j < |out| ==> out[i].nr <= out[j].nr)
  }

  /** What the one that sends knows is acknowledged, or nothing once it has released. */
  function Known(x: Half): int {
    if x.end.state.Released? then 0 else Acked(x)
  }

  /** From `x` to `y`: what `y` delivered is what `x` made, up to where `y` is. */
  ghost predicate Carried(x: Half, y: Half) {
    && Known(x) <= y.heard <= |x.log| <= y.heard + 127
    && Delivered(y) == Flatten(x.log[..y.heard])
    && DataFlies(x.out, x.log, y.heard)
    && AcksFly(y.out, y.heard, Known(x))
  }

  ghost predicate Joined(x: Half, y: Half) {
    EndOk(x) && EndOk(y) && Carried(x, y) && Carried(y, x)
  }

  ghost predicate PairOk(s: Pair) {
    Joined(s.caller, s.called)
  }

  // What events that carry no data do.

  predicate FreshUnlessConnected(e: End) {
    e.state.Connected? || e.state.Released? || (e.vs == e.va == e.vr == 0 && e.sent == [])
  }

  /** The data and the sequence variables stay, but for a V(S) within the window. */
  predicate Quiet(e: End, e': End) {
    && e'.va == e.va && e'.vr == e.vr && e'.sent == e.sent && e'.queue == e.queue && e'.received == e.received
    && 1 <= e'.k <= 127 && e'.n401 >= 1
    && e'.originate == e.originate && e'.offer == e.offer
    && (e.state.Connected? ==> e'.state.Connected?)
    && !e'.state.Released?
    && Lapm.After(e'.vs, e'.va) <= |e'.sent|
  }

  predicate Gone(e: End, e': End) {
    && e'.state.Released? && e'.vr == e.vr && e'.received == e.received && e'.sent == []
    && 1 <= e'.k <= 127 && e'.n401 >= 1
    && e'.originate == e.originate && e'.offer == e.offer
  }

  predicate Calm(e: End, e': End) {
    (!e.state.Released? && Quiet(e, e')) || Gone(e, e')
  }

  lemma CalmKeeps(x: Half, y: Half, e': End)
    requires Joined(x, y) && Calm(x.end, e')
    ensures Joined(x.(end := e'), y)
  {
    if Quiet(x.end, e') && !x.end.state.Released? {
    } else {
      assert Known(x.(end := e')) == 0;
    }
  }

  ghost predicate Sound(e: End) {
    && |e.sent| <= 127 && 1 <= e.k <= 127 && e.n401 >= 1
    && FreshUnlessConnected(e) && (e.state.Released? ==> e.sent == [])
    && (!e.state.Released? ==> Lapm.After(e.vs, e.va) <= |e.sent|)
  }

  /** A change of nothing but the state, the timer, the retries, what is urgent and owed, and the conditions. */
  lemma TweakCalm(e: End, e': End)
    requires Sound(e) && !e.state.Released?
    requires e' == e.(state := e'.state, timer := e'.timer, retries := e'.retries, n401 := e'.n401, k := e'.k,
      rb := e'.rb, peerBusy := e'.peerBusy, reject := e'.reject, recovery := e'.recovery, urgent := e'.urgent,
      owed := e'.owed, compression := e'.compression)
    requires !e'.state.Released? && (e.state.Connected? ==> e'.state.Connected?)
    requires 1 <= e'.k <= 127 && e'.n401 >= 1
    ensures Calm(e, e') && Calm(e, Release(e'))
  {
  }

  lemma ExpireCalm(e: End, now: int)
    requires Sound(e)
    ensures Calm(e, Expire(e, now))
  {
    hide Calm, Quiet, Gone, Sound, Retry, Recover, Release;
    if e.state.Released? {
      ReleasedStays(e, now);
    } else {
      SoundIs(e);
      ReleaseCalm(e);
      TweakCalm(e, e);
      TweakCalm(e, e.(timer := None));
      RetryCalm(e);
      RecoverCalm(e);
    }
  }

  lemma RetryCalm(e: End)
    requires Sound(e) && !e.state.Released?
    ensures Calm(e, Retry(e))
  {
    hide Calm, Quiet, Gone, UnnumberedFrame, XidField.Bytes, OwnXid, Sound;
    var e1 := e.(timer := None, retries := e.retries + 1);
    SoundIs(e);
    TweakCalm(e, e1);
    TweakCalm(e, SendXid(e1));
    TweakCalm(e, SendSabme(e1));
  }

  lemma RecoverCalm(e: End)
    requires Sound(e) && !e.state.Released?
    ensures Calm(e, Recover(e))
  {
    hide Calm, Quiet, Gone, Sound;
    var e1 := e.(timer := None, recovery := true, retries := if e.recovery then e.retries + 1 else 0);
    SoundIs(e);
    TweakCalm(e, e1);
    TweakCalm(e, e1.(owed := e1.owed.(poll := true)));
  }

  lemma SoundIs(e: End)
    requires Sound(e)
    ensures 1 <= e.k <= 127 && e.n401 >= 1
  {
  }

  lemma ReleaseCalm(e: End)
    requires Sound(e)
    ensures Calm(e, Release(e))
  {
  }

  lemma ReleasedStays(e: End, now: int)
    requires Sound(e) && e.state.Released?
    ensures Calm(e, Expire(e, now))
  {
  }

  lemma ClampsInRange(n: Option<Word>, k: Option<Octet>)
    ensures N401Of(n) >= 1 && 1 <= KOf(k) <= 127
  {
  }

  lemma AgreeTweaks(e: End, theirs: XidField.Xid)
    ensures var agreed := Agree(e, theirs);
      agreed.Some? ==>
        var e1 := agreed.value.0;
        e1 == e.(compression := e1.compression, n401 := e1.n401, k := e1.k) && 1 <= e1.k <= 127 && e1.n401 >= 1
  {
    hide Answer, N401Of, KOf;
    ClampsInRange(theirs.n401Rx, theirs.kRx);
  }

  lemma XidCommandCalm(e: End, info: Octets)
    requires Sound(e) && !e.state.Released?
    ensures Calm(e, XidCommand(e, info))
  {
    hide Calm, XidField.Bytes, XidField.Parse, Agree, Respond, Sound, Release;
    SoundIs(e);
    TweakCalm(e, e);
    var parsed := XidField.Parse(info);
    if parsed.Some? && Agree(e, parsed.value).Some? {
      AnswerCalm(e, parsed.value);
    }
  }

  lemma AnswerCalm(e: End, theirs: XidField.Xid)
    requires Sound(e) && !e.state.Released? && Agree(e, theirs).Some?
    ensures var (e1, ours) := Agree(e, theirs).value;
      Calm(e, Respond(e1, Xid, false, XidField.Bytes(ours)))
  {
    hide Calm, XidField.Bytes, Agree, UnnumberedFrame, Sound;
    AgreeTweaks(e, theirs);
    var (e1, ours) := Agree(e, theirs).value;
    TweakCalm(e, Respond(e1, Xid, false, XidField.Bytes(ours)));
  }

  lemma XidResponseCalm(e: End, info: Octets)
    requires Sound(e) && e.state.Negotiating?
    ensures Calm(e, XidResponse(e, info))
  {
    hide Calm, XidField.Bytes, XidField.Parse, Conclude, N401Of, KOf, UnnumberedFrame;
    TweakCalm(e, e);
    var parsed := XidField.Parse(info);
    if parsed.Some? {
      ClampsInRange(parsed.value.n401Rx, parsed.value.kRx);
      if !XidResponse(e, info).state.Released? {
        TweakCalm(e, XidResponse(e, info));
      }
    }
  }

  lemma ConnectCalm(e: End)
    requires Sound(e) && !e.state.Released? && !e.state.Connected?
    ensures Calm(e, Connect(e)) && Connect(e).state.Connected?
  {
  }

  lemma RespondCalm(e: End, e': End, kind: Unnumbered, pf: bool, info: Octets)
    requires Sound(e) && !e.state.Released? && Calm(e, e') && !e'.state.Released?
    ensures Calm(e, Respond(e', kind, pf, info)) && Calm(e, Release(Respond(e', kind, pf, info)))
  {
    hide UnnumberedFrame;
  }

  lemma UnnumberedCalm(e: End, kind: Unnumbered, pf: bool, command: bool, info: Octets)
    requires Sound(e)
    ensures Calm(e, ReceiveUnnumbered(e, kind, pf, command, info))
  {
    hide Calm, Quiet, Gone, Release, Respond, Connect, XidCommand, XidResponse;
    if e.state.Released? {
      NothingCalm(e);
    } else {
      TweakCalm(e, e);
      XidCommandCalm(e, info);
      if e.state.Negotiating? {
        XidResponseCalm(e, info);
      }
      if !e.state.Connected? {
        ConnectCalm(e);
        ConnectRespondCalm(e, kind, pf);
      }
      RespondCalm(e, e, Ua, pf, []);
      RespondCalm(e, e, Dm, pf, []);
      BreakCalm(e, pf, info);
    }
  }

  lemma NothingCalm(e: End)
    requires Sound(e)
    ensures Calm(e, e)
  {
  }

  lemma ConnectRespondCalm(e: End, kind: Unnumbered, pf: bool)
    requires Sound(e) && !e.state.Released? && !e.state.Connected?
    ensures Calm(e, Respond(Connect(e), Ua, pf, []))
  {
    ConnectCalm(e);
    RespondCalm(e, Connect(e), Ua, pf, []);
  }

  lemma BreakCalm(e: End, pf: bool, info: Octets)
    requires Sound(e) && !e.state.Released?
    ensures Calm(e, BreakSignal(e, pf, info))
  {
    hide Calm, UnnumberedFrame;
    TweakCalm(e, BreakSignal(e, pf, info));
  }

  // What a numbered frame does.

  lemma FewerCarry(out: seq<Packet>, i: nat, log: seq<Octets>, heard: nat)
    requires DataFlies(out, log, heard)
    ensures DataFlies(Without(out, i), log, heard)
  {
    hide Carries;
  }

  lemma FewerAwait(out: seq<Packet>, i: nat, heard: nat, acked: int)
    requires AcksFly(out, heard, acked)
    ensures AcksFly(Without(out, i), heard, acked)
  {
    hide Awaits;
  }

  /** The channels do not enter into what an end knows of itself. */
  lemma EndOkAnyway(x: Half, out: seq<Packet>)
    requires EndOk(x)
    ensures EndOk(x.(out := out))
  {
    hide Flatten;
  }

  /** A frame that is lost, or has arrived, is out of the channel. */
  lemma LosesKeep(x: Half, y: Half, i: nat)
    requires Joined(x, y)
    ensures Joined(x.(out := Without(x.out, i)), y)
  {
    hide EndOk, DataFlies, AcksFly, Without;
    EndOkAnyway(x, Without(x.out, i));
    FewerCarry(x.out, i, x.log, y.heard);
    FewerAwait(x.out, i, x.heard, Known(y));
  }

  /** Numbers less than a modulus apart are told apart by their remainders. */
  lemma AfterExact(a: nat, b: nat)
    requires b <= a <= b + 127
    ensures Lapm.After(a % 128, b % 128) == a - b
  {
  }

  /** V(S) stays within the frames that are still unacknowledged, and at V(A) if it was behind. */
  lemma StaysInWindow(vs: Seven, base: nat, nr: nat, size: nat)
    requires base <= nr <= base + size && size <= 127 && Lapm.After(vs, base % 128) <= size
    ensures var vs' := if Lapm.After(vs, base % 128) < nr - base then nr % 128 else vs;
      Lapm.After(vs', nr % 128) <= size - (nr - base)
  {
  }

  /** A valid N(R) moves V(A) up to it, and V(S) if that was behind. */
  lemma AcknowledgeMoves(y: Half, nr: nat, now: int)
    requires EndOk(y) && y.end.state.Connected? && Acked(y) <= nr <= |y.log|
    ensures var (e, valid) := Acknowledge(y.end, nr % 128, now);
      && valid && e.state.Connected?
      && e.vr == y.end.vr && e.received == y.end.received
      && e.va == nr % 128 && e.recovery == y.end.recovery
      && EndOk(y.(end := e)) && Acked(y.(end := e)) == nr
  {
    hide Flatten, Lapm.After;
    AfterExact(nr, Acked(y));
    StaysInWindow(y.end.vs, Acked(y), nr, |y.end.sent|);
    var (e, valid) := Acknowledge(y.end, nr % 128, now);
    assert e.sent == y.log[nr..];
  }

  lemma LaterAwait(out: seq<Packet>, heard: nat, acked: int, nr: nat)
    requires AcksFly(out, heard, acked) && forall i :: 0 <= i < |out| ==> nr <= out[i].nr
    ensures AcksFly(out, heard, nr)
  {
  }

  lemma ConnectedKnows(x: Half)
    requires x.end.state.Connected?
    ensures Known(x) == Acked(x)
  {
  }

  /** Every N(R) that arrives is one, and says what the other end awaits. */
  lemma AcknowledgeKeeps(y: Half, x: Half, nr: nat, r: Seven, now: int)
    requires r == nr % 128 && (forall i :: 0 <= i < |x.out| ==> nr <= x.out[i].nr)
    requires Acked(y) <= nr <= x.heard && y.end.state.Connected? && Joined(y, x)
    ensures var (e, valid) := Acknowledge(y.end, r, now);
      && valid && e.state.Connected? && e.va == r
      && e.vr == y.end.vr && e.received == y.end.received
      && Joined(y.(end := e), x)
  {
    hide EndOk, DataFlies, AcksFly, Acknowledge, Flatten;
    ConnectedKnows(y);
    AcknowledgeMoves(y, nr, now);
    ConnectedKnows(y.(end := Acknowledge(y.end, r, now).0));
    LaterAwait(x.out, x.heard, Known(y), nr);
  }

  lemma SupervisedCalm(e: End, kind: Supervisory, nr: Seven, pf: bool, command: bool, now: int)
    requires Sound(e) && e.state.Connected? && e.va == nr
    ensures Calm(e, Supervised(e, kind, nr, pf, command, now))
  {
  }

  lemma IgnoredCalm(e: End, ns: Seven, poll: bool, info: Octets)
    requires Sound(e) && e.state.Connected? && ns != e.vr
    ensures Calm(e, Informed(e, ns, poll, info))
  {
  }

  /** An I frame is accepted only if it is the one awaited, though N(S) wraps around. */
  lemma SameNumber(y: Half, x: Half, p: Packet)
    requires Carries(p, x.log) && p.frame.control.I? && y.heard <= p.hi <= y.heard + 127 && y.end.vr == y.heard % 128
    ensures p.frame.control.ns == y.end.vr <==> p.ns == y.heard
  {
  }

  lemma TakeFlattens(log: seq<Octets>, n: nat)
    requires n < |log|
    ensures Flatten(log[..n + 1]) == Flatten(log[..n]) + log[n]
  {
    assert log[..n + 1] == log[..n] + [log[n]];
    FlattenAppends(log[..n], [log[n]]);
    assert Flatten([log[n]]) == log[n] + Flatten([]) == log[n];
  }

  /** The I frame awaited moves the receiver on by one. */
  lemma AcceptsCarried(x: Half, y: Half, p: Packet, y': Half)
    requires Carried(x, y) && Carries(p, x.log) && p.frame.control.I? && p.ns == y.heard
    requires forall i :: 0 <= i < |x.out| ==> p.hi <= x.out[i].hi
    requires y'.heard == y.heard + 1 && Delivered(y') == Delivered(y) + p.frame.info && y'.out == y.out
    requires Known(y') == Known(y) && y'.log == y.log
    ensures Carried(x, y')
  {
    hide Flatten, Delivered;
    TakeFlattens(x.log, y.heard);
  }

  lemma AcceptsEndOk(y: Half, ns: Seven, poll: bool, info: Octets)
    requires EndOk(y) && y.end.state.Connected? && ns == y.end.vr
    ensures var e := Informed(y.end, ns, poll, info);
      && EndOk(y.(end := e, heard := y.heard + 1)) && Known(y.(end := e, heard := y.heard + 1)) == Known(y)
      && e.received == y.end.received + info && Lapm.After(e.vr, y.end.vr) == 1 && e.state.Connected?
  {
    hide Flatten;
  }

  lemma AcceptKeeps(y: Half, x: Half, p: Packet)
    requires p.frame.control.I? && p.frame.control.ns == y.end.vr && y.end.state.Connected? && p.ns == y.heard
    requires forall i :: 0 <= i < |x.out| ==> p.hi <= x.out[i].hi
    requires Carries(p, x.log) && Joined(y, x)
    ensures var e := Informed(y.end, p.frame.control.ns, p.frame.control.poll, p.frame.info);
      Joined(y.(end := e, heard := y.heard + 1), x) && Lapm.After(e.vr, y.end.vr) == 1
  {
    hide EndOk, DataFlies, AcksFly, Informed, Flatten;
    var e := Informed(y.end, p.frame.control.ns, p.frame.control.poll, p.frame.info);
    var y' := y.(end := e, heard := y.heard + 1);
    AcceptsEndOk(y, p.frame.control.ns, p.frame.control.poll, p.frame.info);
    assert y.taken + (y.end.received + p.frame.info) == y.taken + y.end.received + p.frame.info;
    AcceptsCarried(x, y, p, y');
    assert Known(y') == Known(y);
  }

  // The steps of the pair.

  /** A frame that `x` sent arrives at `y`, and leaves the channel. */
  lemma {:induction false} ArriveKeeps(y: Half, x: Half, now: int)
    requires x.out != [] && WellFormed(x.out[0].frame) && Joined(y, x)
    ensures Joined(ArriveAt(y, x.out[0], now), x.(out := x.out[1..]))
  {
    hide EndOk, Carries, Flatten, Receive, Bytes;
    var p := x.out[0];
    assert x.out[1..] == Without(x.out, 0);
    var x1 := x.(out := Without(x.out, 0));
    SymmetricLoss(y, x);
    ReceiveKeeps(y, x1, p, now);
  }

  lemma SymmetricLoss(y: Half, x: Half)
    requires Joined(y, x)
    ensures Joined(y, x.(out := Without(x.out, 0)))
  {
    hide EndOk, DataFlies, AcksFly, Without, Flatten;
    LosesKeep(x, y, 0);
  }

  /** Arrives at `y` ahead of all that is still in the channel. */
  ghost predicate Ahead(p: Packet, y: Half, x: Half) {
    && Carries(p, x.log) && Awaits(p) && y.heard <= p.hi <= y.heard + 127
    && Known(y) <= p.nr <= x.heard
    && (forall i :: 0 <= i < |x.out| ==> p.hi <= x.out[i].hi && p.nr <= x.out[i].nr)
  }

  lemma JoinedSound(y: Half, x: Half)
    requires Joined(y, x)
    ensures Sound(y.end) && EndOk(y)
  {
    hide EndOk, Carried, Sound;
    EndOkSound(y);
  }

  lemma EndOkSound(y: Half)
    requires EndOk(y)
    ensures Sound(y.end)
  {
    hide Flatten;
  }

  lemma CalmReads(e: End, e': End)
    requires Calm(e, e')
    ensures e'.vr == e.vr && Lapm.After(e'.vr, e.vr) == 0
  {
  }

  lemma AheadAnyway(p: Packet, y: Half, e: End, x: Half)
    requires Ahead(p, y, x) && Calm(y.end, e)
    ensures Ahead(p, y.(end := e), x)
  {
    hide Carries, Awaits;
  }

  lemma ReceiveKeeps(y: Half, x: Half, p: Packet, now: int)
    requires WellFormed(p.frame) && Ahead(p, y, x) && Joined(y, x)
    ensures Joined(ArriveAt(y, p, now), x)
  {
    hide Joined, Expire, ReceiveUnnumbered, ReceiveNumbered, Bytes, Parse, Calm, Ahead, Sound, EndOk;
    ParsesBytes(p.frame);
    JoinedSound(y, x);
    ExpireCalm(y.end, now);
    var e := Expire(y.end, now);
    CalmKeeps(y, x, e);
    CalmReads(y.end, e);
    var y1 := y.(end := e);
    AheadAnyway(p, y, e, x);
    JoinedSound(y1, x);
    var command := p.frame.cr == !e.originate;
    if p.frame.control.U? {
      UnnumberedCalm(e, p.frame.control.command, p.frame.control.pf, command, p.frame.info);
      var e' := ReceiveUnnumbered(e, p.frame.control.command, p.frame.control.pf, command, p.frame.info);
      CalmKeeps(y1, x, e');
      CalmReads(e, e');
      assert ArriveAt(y, p, now) == y1.(end := e');
    } else {
      NumberedKeeps(y1, x, p, command, now);
    }
  }

  /** An end in any state, and a numbered frame that is next in its channel. */
  lemma NumberedKeeps(y: Half, x: Half, p: Packet, command: bool, now: int)
    requires !p.frame.control.U? && Ahead(p, y, x) && Joined(y, x)
    ensures var e := ReceiveNumbered(y.end, p.frame, command, now);
      Joined(y.(end := e, heard := y.heard + Lapm.After(e.vr, y.end.vr)), x)
  {
    hide Joined, Connect, Information, ReceiveSupervisory, Calm, Sound, Ahead, EndOk, Lapm.After;
    NoDistance(y.end.vr);
    if y.end.state.Establishing? {
      JoinedSound(y, x);
      ConnectCalm(y.end);
      CalmKeeps(y, x, Connect(y.end));
      CalmReads(y.end, Connect(y.end));
      AheadAnyway(p, y, Connect(y.end), x);
      ConnectedNumberedKeeps(y.(end := Connect(y.end)), x, p, command, now);
    } else if y.end.state.Connected? {
      ConnectedNumberedKeeps(y, x, p, command, now);
    }
  }

  lemma NoDistance(n: Seven)
    ensures Lapm.After(n, n) == 0
  {
  }

  lemma ConnectedNumberedKeeps(y: Half, x: Half, p: Packet, command: bool, now: int)
    requires !p.frame.control.U? && Ahead(p, y, x) && Joined(y, x) && y.end.state.Connected?
    ensures var e := ReceiveNumbered(y.end, p.frame, command, now);
      Joined(y.(end := e, heard := y.heard + Lapm.After(e.vr, y.end.vr)), x)
  {
    hide Joined, Information, ReceiveSupervisory, Ahead, Lapm.After;
    NoDistance(y.end.vr);
    match p.frame.control
    case I(ns, nr, poll) =>
      if command {
        InformationKeeps(y, x, p, now);
      }
    case S(kind, nr, pf) => SupervisoryKeeps(y, x, p, command, now);
  }

  lemma InformationKeeps(y: Half, x: Half, p: Packet, now: int)
    requires p.frame.control.I? && y.end.state.Connected? && Ahead(p, y, x) && Joined(y, x)
    ensures var c := p.frame.control;
      var e := Information(y.end, c.ns, c.nr, c.poll, p.frame.info, now);
      Joined(y.(end := e, heard := y.heard + Lapm.After(e.vr, y.end.vr)), x)
  {
    hide Joined, Acknowledge, Informed, Carries, Calm, Sound;
    var c := p.frame.control;
    ConnectedKnows(y);
    AcknowledgeKeeps(y, x, p.nr, c.nr, now);
    var e1 := Acknowledge(y.end, c.nr, now).0;
    var y1 := y.(end := e1);
    JoinedSound(y1, x);
    SameNumber(y1, x, p);
    if c.ns == e1.vr {
      AcceptKeeps(y1, x, p);
    } else {
      IgnoredCalm(e1, c.ns, c.poll, p.frame.info);
      var e := Informed(e1, c.ns, c.poll, p.frame.info);
      CalmKeeps(y1, x, e);
      CalmReads(e1, e);
    }
  }

  lemma SupervisoryKeeps(y: Half, x: Half, p: Packet, command: bool, now: int)
    requires p.frame.control.S? && y.end.state.Connected? && Ahead(p, y, x) && Joined(y, x)
    ensures var c := p.frame.control;
      var e := ReceiveSupervisory(y.end, c.kind, c.nr, c.pf, command, now);
      Joined(y.(end := e, heard := y.heard + Lapm.After(e.vr, y.end.vr)), x)
  {
    hide Joined, Acknowledge, Supervised, Calm, Sound, Carries, Release;
    var c := p.frame.control;
    JoinedSound(y, x);
    if c.kind == Srej {
      ReleaseCalm(y.end);
      CalmKeeps(y, x, Release(y.end));
      CalmReads(y.end, Release(y.end));
    } else {
      ConnectedKnows(y);
      AcknowledgeKeeps(y, x, p.nr, c.nr, now);
      var e1 := Acknowledge(y.end, c.nr, now).0;
      var y1 := y.(end := e1);
      JoinedSound(y1, x);
      SupervisedCalm(e1, c.kind, c.nr, c.pf, command, now);
      var e := Supervised(e1, c.kind, c.nr, c.pf, command, now);
      CalmKeeps(y1, x, e);
      CalmReads(e1, e);
    }
  }

  // Transmission.

  lemma GiveKeeps(x: Half, y: Half, bytes: Octets)
    requires Joined(x, y)
    ensures Joined(GiveTo(x, bytes), y)
  {
    hide EndOk, Carried;
    GiveEndOk(x, bytes);
    GiveCarried(x, y, bytes);
  }

  lemma GiveEndOk(x: Half, bytes: Octets)
    requires EndOk(x)
    ensures EndOk(GiveTo(x, bytes))
  {
    hide Flatten, Lapm.After;
    if !x.end.state.Released? {
      assert Flatten(x.log) + (x.end.queue + bytes) == Flatten(x.log) + x.end.queue + bytes;
    }
  }

  lemma GiveCarried(x: Half, y: Half, bytes: Octets)
    requires Carried(x, y) && Carried(y, x)
    ensures Carried(GiveTo(x, bytes), y) && Carried(y, GiveTo(x, bytes))
  {
    hide DataFlies, AcksFly, Flatten;
  }

  lemma TakeKeeps(x: Half, y: Half)
    requires Joined(x, y)
    ensures Joined(TakeFrom(x), y)
  {
    hide DataFlies, AcksFly, Flatten;
    assert x.taken + x.end.received + [] == x.taken + x.end.received;
  }

  /** A packet that carries no I frame is ready to send at any time. */
  ghost predicate Ready(p: Packet, x: Half) {
    p.hi == |x.log| && p.nr == x.heard && Awaits(p) && Carries(p, x.log)
  }

  lemma SendsData(out: seq<Packet>, log: seq<Octets>, heard: nat, p: Packet)
    requires DataFlies(out, log, heard) && Carries(p, log) && p.hi == |log| && heard <= |log| <= heard + 127
    ensures DataFlies(out + [p], log, heard)
  {
  }

  lemma SendsAck(out: seq<Packet>, heard: nat, acked: int, p: Packet)
    requires AcksFly(out, heard, acked) && Awaits(p) && p.nr == heard >= acked
    ensures AcksFly(out + [p], heard, acked)
  {
    hide Awaits;
  }

  /** A frame with no new data goes out. */
  lemma SendsKeeps(x: Half, y: Half, p: Packet)
    requires Ready(p, x) && Joined(x, y)
    ensures Joined(x.(out := x.out + [p]), y)
  {
    hide EndOk, Carries, DataFlies, AcksFly, Flatten, Awaits;
    EndOkAnyway(x, x.out + [p]);
    SendsData(x.out, x.log, y.heard, p);
    SendsAck(x.out, x.heard, Known(y), p);
  }

  /** Making an I frame leaves the others what they were. */
  lemma LogsData(out: seq<Packet>, log: seq<Octets>, heard: nat, info: Octets)
    requires DataFlies(out, log, heard)
    ensures DataFlies(out, log + [info], heard)
  {
  }

  lemma VsNames(vs: Seven, base: nat, size: nat)
    requires Lapm.After(vs, base % 128) <= size <= 127
    ensures (base + Lapm.After(vs, base % 128)) % 128 == vs
    ensures Lapm.After((vs + 1) % 128, base % 128) == if Lapm.After(vs, base % 128) == 127 then 0
      else Lapm.After(vs, base % 128) + 1
  {
    var k, r := base / 128, base % 128;
    assert base == r + 128 * k;
    AddWindows(r + Lapm.After(vs, r), k);
    NextAfter(vs, r);
  }

  lemma AddWindows(v: int, k: int)
    ensures (v + 128 * k) % 128 == v % 128
  {
  }

  lemma NextAfter(vs: Seven, va: Seven)
    ensures (va + Lapm.After(vs, va)) % 128 == vs
    ensures Lapm.After((vs + 1) % 128, va) == if Lapm.After(vs, va) == 127 then 0 else Lapm.After(vs, va) + 1
  {
  }

  /** Sending an I frame again. */
  lemma ResendMoves(x: Half, now: int)
    requires EndOk(x) && x.end.state.Connected? && !x.end.peerBusy && !x.end.recovery
    requires Lapm.After(x.end.vs, x.end.va) < |x.end.sent|
    ensures var (e, frame) := NextIFrame(x.end, now);
      var number := Acked(x) + Lapm.After(x.end.vs, x.end.va);
      && frame.Some? && 0 <= number < |x.log| <= number + 127
      && frame.value.control == I(x.end.vs, x.end.vr, false) && frame.value.info == x.log[number]
      && x.end.vs == number % 128
      && EndOk(x.(end := e)) && Known(x.(end := e)) == Known(x)
      && e.vr == x.end.vr && e.received == x.end.received && e.state.Connected?
  {
    hide Flatten, Lapm.After;
    VsNames(x.end.vs, Acked(x), |x.end.sent|);
  }

  /** What an end makes of its queue goes at the end of its books. */
  lemma FreshEndOk(x: Half, e: End, info: Octets)
    requires EndOk(x) && x.end.state.Connected? && e.state.Connected? && |x.end.sent| < x.end.k
    requires e.sent == x.end.sent + [info] && info + e.queue == x.end.queue
    requires e.va == x.end.va && e.vr == x.end.vr && e.k == x.end.k && e.n401 == x.end.n401
    requires Lapm.After(e.vs, e.va) <= |e.sent|
    ensures EndOk(x.(end := e, log := x.log + [info]))
  {
    hide Flatten, Lapm.After;
    FlattenAppends(x.log, [info]);
    FlattenOne(info);
    assert Flatten(x.log) + info + e.queue == Flatten(x.log) + (info + e.queue);
    TailAppends(x.log, |x.log| - |x.end.sent|, info);
  }

  lemma FreshFields(e: End, now: int)
    requires e.state.Connected? && !e.peerBusy && !e.recovery && e.queue != [] && |e.sent| < e.k
    requires Lapm.After(e.vs, e.va) == |e.sent|
    ensures var (e', frame) := NextIFrame(e, now);
      && frame.Some? && frame.value.control == I(e.vs, e.vr, false)
      && e'.sent == e.sent + [frame.value.info] && frame.value.info + e'.queue == e.queue
      && e'.va == e.va && e'.vr == e.vr && e'.k == e.k && e'.n401 == e.n401 && e'.vs == (e.vs + 1) % MODULUS
      && e'.received == e.received && e'.state.Connected?
  {
    hide Lapm.After;
  }

  lemma EndOkWindow(x: Half)
    requires EndOk(x) && x.end.state.Connected?
    ensures |x.end.sent| <= |x.log| && |x.end.sent| <= 127 && x.end.k <= 127
    ensures x.end.va == Acked(x) % 128 && Lapm.After(x.end.vs, x.end.va) <= |x.end.sent|
  {
    hide Flatten;
  }

  /** Sending a new I frame takes it from the queue. */
  lemma FreshMoves(x: Half, now: int)
    requires EndOk(x) && x.end.state.Connected? && !x.end.peerBusy && !x.end.recovery
    requires Lapm.After(x.end.vs, x.end.va) >= |x.end.sent| && |x.end.sent| < x.end.k && x.end.queue != []
    ensures var (e, frame) := NextIFrame(x.end, now);
      && frame.Some? && |x.end.sent| <= |x.log| && Lapm.After(x.end.vs, x.end.va) == |x.end.sent|
      && frame.value.control == I(x.end.vs, x.end.vr, false) && x.end.vs == |x.log| % 128
      && var log := x.log + [frame.value.info];
      && EndOk(x.(end := e, log := log)) && Known(x.(end := e, log := log)) == Known(x)
      && |log| <= Acked(x) + 127
      && e.vr == x.end.vr && e.received == x.end.received && e.state.Connected?
  {
    hide EndOk, NextIFrame, Lapm.After;
    EndOkWindow(x);
    VsNames(x.end.vs, Acked(x), |x.end.sent|);
    FreshFields(x.end, now);
    var (e, frame) := NextIFrame(x.end, now);
    FreshEndOk(x, e, frame.value.info);
  }

  lemma TailAppends(log: seq<Octets>, n: nat, info: Octets)
    requires n <= |log|
    ensures log[n..] + [info] == (log + [info])[n..]
  {
  }

  lemma FlattenOne(info: Octets)
    ensures Flatten([info]) == info
  {
    assert Flatten([info]) == info + Flatten([]);
  }

  lemma IFrameKeeps(x: Half, y: Half, now: int)
    requires x.end.state.Connected? && NextIFrame(x.end, now).1.Some? && Joined(x, y)
    ensures |x.end.sent| <= |x.log|
    ensures var (e, frame) := NextIFrame(x.end, now);
      var number := |x.log| - |x.end.sent| + Lapm.After(x.end.vs, x.end.va);
      var log := if number == |x.log| then x.log + [frame.value.info] else x.log;
      && frame.value.control.I? && WellFormed(frame.value) && e.state.Connected? && e.urgent == x.end.urgent
      && Joined(x.(end := e, log := log, out := x.out + [Packet(frame.value, number, x.heard, |log|)]), y)
  {
    hide EndOk, DataFlies, AcksFly, Carries, Flatten, NextIFrame, Joined, Carried, Lapm.After;
    JoinedParts(x, y);
    NextIFrameGuards(x.end, now);
    var (e, frame) := NextIFrame(x.end, now);
    var number := Acked(x) + Lapm.After(x.end.vs, x.end.va);
    if Lapm.After(x.end.vs, x.end.va) < |x.end.sent| {
      ResendMoves(x, now);
      var x1 := x.(end := e);
      KeepsJoined(x, y, x1);
      CarriesIFrame(x.log, frame.value, number, x.heard);
      SendsKeeps(x1, y, Packet(frame.value, number, x.heard, |x.log|));
    } else {
      FreshMoves(x, now);
      var log := x.log + [frame.value.info];
      var x1 := x.(end := e, log := log);
      LogsKeep(x, y, x1);
      CarriesIFrame(log, frame.value, number, x.heard);
      SendsKeeps(x1, y, Packet(frame.value, number, x.heard, |log|));
    }
  }

  lemma JoinedParts(x: Half, y: Half)
    requires Joined(x, y)
    ensures EndOk(x) && EndOk(y) && Carried(x, y) && Carried(y, x)
    ensures |x.log| <= y.heard + 127 && Known(x) <= y.heard
    ensures |x.end.sent| <= 127
  {
  }

  lemma NextIFrameGuards(e: End, now: int)
    ensures NextIFrame(e, now).1.Some? ==>
      && !e.peerBusy && !e.recovery
      && (Lapm.After(e.vs, e.va) < |e.sent| || (|e.sent| < e.k && e.queue != []))
    ensures NextIFrame(e, now).0.urgent == e.urgent
    ensures NextIFrame(e, now).1.None? ==> NextIFrame(e, now).0 == e
  {
  }

  lemma CarriesIFrame(log: seq<Octets>, frame: Frame, number: nat, heard: nat)
    requires number < |log| <= number + 127
    requires frame.control == I(number % 128, heard % 128, false) && frame.info == log[number]
    ensures var p := Packet(frame, number, heard, |log|); Awaits(p) && Carries(p, log)
  {
  }

  /** The other end sees no difference in an end that has only moved on in its own books. */
  lemma KeepsJoined(x: Half, y: Half, x': Half)
    requires Joined(x, y) && EndOk(x') && Known(x') == Known(x)
    requires x'.log == x.log && x'.heard == x.heard && x'.out == x.out && Delivered(x') == Delivered(x)
    ensures Joined(x', y)
  {
    hide EndOk, DataFlies, AcksFly, Flatten, Delivered;
  }

  lemma LogsKeep(x: Half, y: Half, x': Half)
    requires Joined(x, y) && EndOk(x') && Known(x') == Known(x)
    requires |x'.log| == |x.log| + 1 && x'.log[..|x.log|] == x.log && |x'.log| <= y.heard + 127
    requires x'.heard == x.heard && x'.out == x.out && Delivered(x') == Delivered(x)
    ensures Joined(x', y)
  {
    hide EndOk, DataFlies, AcksFly, Flatten, Delivered;
    assert x'.log == x.log + [x'.log[|x.log|]];
    LogsData(x.out, x.log, y.heard, x'.log[|x.log|]);
    assert x'.log[..y.heard] == x.log[..y.heard];
  }

  /** What is urgent carries neither data nor N(R). */
  predicate UrgentOk(e: End) {
    forall i :: 0 <= i < |e.urgent| ==> e.urgent[i].0.control.U? && WellFormed(e.urgent[i].0)
  }

  lemma SupervisoryNext(e: End, now: int)
    requires Sound(e) && e.state.Connected?
    requires NextNumbered(e, now).1.None? || NextNumbered(e, now).1.value.control.S?
    ensures var (e', frame) := NextNumbered(e, now);
      && Calm(e, e') && e'.urgent == e.urgent
      && (frame.Some? ==> frame.value.control.nr == e.vr && WellFormed(frame.value))
      && (frame.Some? ==> frame.value.control.kind == Rr || frame.value.control.kind == Rej)
  {
    hide NextIFrame, Calm;
    NextIFrameGuards(e, now);
    NextIFrameIsI(e, now);
    TweakCalm(e, e);
    if NextIFrame(e, now).1.None? {
      TweakCalm(e, NextNumbered(e, now).0);
    } else {
      var quiet := e.(owed := e.owed.(ack := false));
      TweakCalm(e, quiet.(owed := quiet.owed.(finalRr := false)));
      TweakCalm(e, NextNumbered(e, now).0);
    }
  }

  lemma NextIFrameIsI(e: End, now: int)
    ensures var frame := NextIFrame(e, now).1; frame.Some? ==> frame.value.control.I?
  {
  }

  lemma NumberedKinds(e: End, now: int)
    ensures var frame := NextNumbered(e, now).1;
      || frame.None? || frame.value.control.S?
      || (frame == NextIFrame(e, now).1 && NextNumbered(e, now) == NextIFrame(e, now))
  {
    hide NextIFrame;
  }

  lemma UrgentNext(e: End, now: int)
    requires Sound(e) && e.urgent != []
    ensures var (frame, timed) := e.urgent[0];
      Calm(e, e.(urgent := e.urgent[1..], timer := if timed then Some(now + e.t401) else e.timer))
  {
    hide Calm;
    var e' := e.(urgent := e.urgent[1..], timer := if e.urgent[0].1 then Some(now + e.t401) else e.timer);
    if e.state.Released? {
      GoneStays(e, e');
    } else {
      TweakCalm(e, e');
    }
  }

  lemma GoneStays(e: End, e': End)
    requires Sound(e) && e.state.Released? && e' == e.(urgent := e'.urgent, timer := e'.timer)
    ensures Calm(e, e')
  {
  }

  lemma ReadyOther(x: Half, frame: Frame, number: nat)
    requires frame.control.U? || (frame.control.S? && frame.control.nr == x.heard % 128)
    ensures Ready(Packet(frame, number, x.heard, |x.log|), x)
  {
  }

  lemma EndOkReads(x: Half)
    requires EndOk(x)
    ensures x.end.vr == x.heard % 128
  {
  }

  lemma TransmitKeeps(x: Half, y: Half, now: int)
    requires UrgentOk(Expire(x.end, now)) && Joined(x, y)
    ensures Joined(TransmitFrom(x, now), y)
  {
    hide Joined, Expire, NextNumbered, NextIFrame, Calm, Sound, EndOk, Carried, Ready, Lapm.After;
    JoinedSound(x, y);
    ExpireCalm(x.end, now);
    var e := Expire(x.end, now);
    CalmKeeps(x, y, e);
    var x1 := x.(end := e);
    JoinedSound(x1, y);
    var (e', frame) := NextFrame(x.end, now);
    var x' := TransmitFrom(x, now);
    if e.urgent != [] {
      UrgentNext(e, now);
      CalmKeeps(x1, y, e');
      ReadyOther(x1.(end := e'), frame.value, x'.out[|x.out|].ns);
      SendsKeeps(x1.(end := e'), y, x'.out[|x.out|]);
    } else if e.state.Connected? {
      NumberedKinds(e, now);
      if frame.None? || frame.value.control.S? {
        SupervisoryNext(e, now);
        CalmKeeps(x1, y, e');
        if frame.Some? {
          EndOkReads(x1);
          ReadyOther(x1.(end := e'), frame.value, x'.out[|x.out|].ns);
          SendsKeeps(x1.(end := e'), y, x'.out[|x.out|]);
        }
      } else {
        IFrameKeeps(x1, y, now);
      }
    }
  }
}
