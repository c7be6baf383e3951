/** An end of a LAPM link (section 8 of V.42) as a value, and the value that each event makes of it. */
module Lapm {
  import opened Prelude
  import opened LapmFrame
  import XidField
  import opened Negotiation

  const DEFAULT_N401: Word := 128
  const DEFAULT_K: Octet := 15
  const MAX_N401: Word := 2048
  const MAX_K: Octet := 127
  const MODULUS := 128
  /** Retries before giving up (section 9.2.2). */
  const N400 := 10

  const BRK := 0x40
  const BRKACK := 0x60

  datatype State =
    | Waiting(deadline: int)
    | Negotiating
    | Establishing
    | Connected
    | Released

  /** What is still to be answered: a REJ and its F bit, a final RR, a poll, and an acknowledgement. */
  datatype Owed = Owed(reject: Option<bool>, finalRr: bool, poll: bool, ack: bool)

  datatype End = End(
    originate: bool,
    state: State,
    t401: nat,
    timer: Option<int>,
    retries: nat,
    n401: Word,
    k: Octet,
    vs: Seven,
    va: Seven,
    vr: Seven,
    rb: bool,
    sent: seq<Octets>,
    resent: nat,
    queue: Octets,
    received: Octets,
    peerBusy: bool,
    reject: bool,
    recovery: bool,
    urgent: seq<(Frame, bool)>,
    owed: Owed,
    offer: Option<Directions>,
    compression: Option<Directions>)

  const NothingOwed := Owed(None, false, false, false)

  function NewEnd(originate: bool, state: State, t401: nat, offer: Option<Directions>): End {
    End(originate, state, t401, None, 0, DEFAULT_N401, DEFAULT_K, 0, 0, 0, false, [], 0, [], [],
      false, false, false, [], NothingOwed, offer, None)
  }

  function Originator(t401: nat, offer: Option<Directions>): End {
    SendXid(NewEnd(true, Negotiating, t401, offer))
  }

  function Answerer(t401: nat, now: int, offer: Option<Directions>): End {
    NewEnd(false, Waiting(now + t401 * N400), t401, offer)
  }

  /** A released end takes no more data. */
  function Send(e: End, bytes: Octets): End {
    if e.state.Released? then e else e.(queue := e.queue + bytes)
  }

  function Release(e: End): End {
    e.(state := Released, timer := None, queue := [], sent := [])
  }

  /** The C/R bit of this end's commands and responses. */
  function Cr(e: End, command: bool): bool {
    command == e.originate
  }

  function UnnumberedFrame(e: End, command: bool, kind: Unnumbered, pf: bool, info: Octets): Frame {
    Frame(Cr(e, command), U(kind, pf), info)
  }

  function SupervisoryFrame(e: End, command: bool, kind: Supervisory, pf: bool): Frame {
    Frame(Cr(e, command), S(kind, e.vr, pf), [])
  }

  function OwnXid(offer: Option<Directions>): XidField.Xid {
    XidField.Xid(0, Some(DEFAULT_N401), Some(DEFAULT_N401), Some(DEFAULT_K), Some(DEFAULT_K),
      if offer.Some? then Some(Proposal(offer.value)) else None)
  }

  function Urge(e: End, frame: Frame, timed: bool): End {
    e.(urgent := e.urgent + [(frame, timed)])
  }

  function SendXid(e: End): End {
    Urge(e, UnnumberedFrame(e, true, Xid, false, XidField.Bytes(OwnXid(e.offer))), true)
  }

  function SendSabme(e: End): End {
    Urge(e, UnnumberedFrame(e, true, Sabme, true, []), true)
  }

  function Respond(e: End, kind: Unnumbered, pf: bool, info: Octets): End {
    Urge(e, UnnumberedFrame(e, false, kind, pf, info), false)
  }

  function Connect(e: End): End {
    e.(state := Connected, timer := None, retries := 0, vs := 0, va := 0, vr := 0, sent := [],
      peerBusy := false, reject := false, recovery := false)
  }

  /** T401 expired before the connection was established. */
  function Retry(e: End): End {
    var e1 := e.(timer := None, retries := e.retries + 1);
    if e1.retries >= N400 then Release(e1)
    else if e.state.Negotiating? then SendXid(e1)
    else SendSabme(e1)
  }

  /** T401 expired on a connection: timer recovery, by polling the far end. */
  function Recover(e: End): End {
    var e1 := e.(timer := None, recovery := true, retries := if e.recovery then e.retries + 1 else 0);
    if e1.retries >= N400 then Release(e1) else e1.(owed := e1.owed.(poll := true))
  }

  function Expire(e: End, now: int): End {
    if e.state.Waiting? && now >= e.state.deadline then Release(e)
    else if e.timer.None? || now < e.timer.value then e
    else if e.state.Negotiating? || e.state.Establishing? then Retry(e)
    else if e.state.Connected? then Recover(e)
    else e.(timer := None)
  }

  function After(a: Seven, b: Seven): Seven {
    (a - b) % MODULUS
  }

  /** Whether there is an I frame to send: one again, or a new one if the window and the queue allow. */
  predicate MaySendData(e: End) {
    && !e.peerBusy && !e.recovery
    && (After(e.vs, e.va) < |e.sent| || (|e.sent| < e.k && e.queue != []))
  }

  /** Makes a new I frame of the queue, unless V(S) names one that was sent before. */
  function Loaded(e: End): End {
    var n := Min(|e.queue|, e.n401);
    if After(e.vs, e.va) < |e.sent| then e.(resent := e.resent + 1)
    else e.(sent := e.sent + [e.queue[..n]], queue := e.queue[n..])
  }

  /** Sends the I frame that V(S) names. */
  function Launched(e: End, now: int): (End, Frame) {
    var index := After(e.vs, e.va);
    (e.(vs := (e.vs + 1) % MODULUS, owed := e.owed.(ack := false),
        timer := if e.timer.None? then Some(now + e.t401) else e.timer),
      Frame(Cr(e, true), I(e.vs, e.vr, false), if index < |e.sent| then e.sent[index] else []))
  }

  function NextIFrame(e: End, now: int): (End, Option<Frame>) {
    if MaySendData(e) then
      var (e1, frame) := Launched(Loaded(e), now);
      (e1, Some(frame))
    else (e, None)
  }

  /** Whether a supervisory frame goes before any I frame. */
  predicate Owes(owed: Owed) {
    owed.reject.Some? || owed.finalRr || owed.poll
  }

  /** The supervisory frame that goes first: a REJ, then a final RR, then a poll. */
  function OwedFrame(e: End): Frame {
    if e.owed.reject.Some? then SupervisoryFrame(e, false, Rej, e.owed.reject.value)
    else if e.owed.finalRr then SupervisoryFrame(e, false, Rr, true)
    else SupervisoryFrame(e, true, Rr, true)
  }

  /** What is owed once it has gone out: a final REJ pays for a final RR too. */
  function Paid(owed: Owed): Owed {
    if owed.reject.Some? then Owed(None, owed.finalRr && !owed.reject.value, owed.poll, false)
    else Owed(None, false, owed.poll && owed.finalRr, false)
  }

  /** A poll starts T401. */
  predicate Polls(owed: Owed) {
    owed.reject.None? && !owed.finalRr && owed.poll
  }

  /** What a connected end with nothing urgent sends. */
  function NextNumbered(e: End, now: int): (End, Option<Frame>) {
    if Owes(e.owed) then
      (e.(owed := Paid(e.owed), timer := if Polls(e.owed) then Some(now + e.t401) else e.timer), Some(OwedFrame(e)))
    else
      var (e1, frame) := NextIFrame(e, now);
      if frame.Some? then (e1, frame)
      else if e.owed.ack then (e.(owed := e.owed.(ack := false)), Some(SupervisoryFrame(e, false, Rr, false)))
      else (e, None)
  }

  /** The end after it was asked for a frame, and the frame. */
  function NextFrame(e0: End, now: int): (End, Option<Frame>) {
    var e := Expire(e0, now);
    if e.urgent != [] then
      var (frame, timed) := e.urgent[0];
      (e.(urgent := e.urgent[1..], timer := if timed then Some(now + e.t401) else e.timer), Some(frame))
    else if e.state.Connected? then NextNumbered(e, now)
    else (e, None)
  }

  function Clamp(n: int, most: int): int
    requires most >= 1
  {
    if n < 1 then 1 else if n > most then most else n
  }

  function N401Of(n: Option<Word>): Word {
    if n.None? then DEFAULT_N401 else Clamp(n.value, MAX_N401)
  }

  function KOf(k: Option<Octet>): Octet {
    if k.None? then DEFAULT_K else Clamp(k.value, MAX_K)
  }

  /** The far end's limits for what this end sends, and what was agreed on compression. */
  function Adopted(e: End, theirs: XidField.Xid, agreed: Option<Directions>): End {
    e.(compression := agreed, n401 := N401Of(theirs.n401Rx), k := KOf(theirs.kRx))
  }

  /** What an XID command makes of the end, and the parameters it answers with; nothing where the negotiation fails. */
  function Agree(e: End, theirs: XidField.Xid): Option<(End, XidField.Xid)> {
    var negotiates := !e.state.Connected? && theirs.compression.Some?;
    var answer := if negotiates then Answer(e.offer, theirs.compression.value)
      else Negotiation.Ok((XidField.Compression(0, None, None), e.compression));
    match answer
    case ProceduralError => None
    case Ok((reply, agreed)) =>
      var e1 := Adopted(e, theirs, agreed);
      Some((e1, XidField.Xid(0, Some(e1.n401), Some(N401Of(theirs.n401Tx)), Some(e1.k), Some(KOf(theirs.kTx)),
        if negotiates then Some(reply) else None)))
  }

  function XidCommand(e: End, info: Octets): End {
    match XidField.Parse(info)
    case None => e
    case Some(theirs) =>
      match Agree(e, theirs)
      case None => Release(e)
      case Some((e1, ours)) => Respond(e1, Xid, false, XidField.Bytes(ours))
  }

  function XidResponse(e: End, info: Octets): End {
    match XidField.Parse(info)
    case None => e
    case Some(theirs) =>
      var concluded := if e.offer.None? then Negotiation.Ok(None) else Conclude(e.offer.value, theirs.compression);
      match concluded
      case ProceduralError => Release(e)
      case Ok(agreed) =>
        SendSabme(Adopted(e, theirs, agreed).(state := Establishing, retries := 0, timer := None))
  }

  /** A BRK is answered by a BRKACK with the toggled bit; other UI frames change nothing. */
  function BreakSignal(e: End, pf: bool, info: Octets): End {
    if info == [] || info[0] % 128 != BRK then e
    else
      var e1 := e.(rb := if (info[0] >= 128) == e.rb then !e.rb else e.rb);
      Respond(e1, Ui, pf, [BRKACK + 128 * Bit(e1.rb)])
  }

  function ReceiveUnnumbered(e: End, kind: Unnumbered, pf: bool, command: bool, info: Octets): End {
    if e.state.Released? then e
    else if kind == Xid && command then XidCommand(e, info)
    else if kind == Xid && e.state.Negotiating? then XidResponse(e, info)
    else if kind == Sabme && command && e.state.Waiting? then Respond(Connect(e), Ua, pf, [])
    else if kind == Sabme && command && e.state.Connected? then
      if e.vs == 0 && e.va == 0 && e.vr == 0 && e.sent == [] then Respond(e, Ua, pf, []) else Release(e)
    else if kind == Ua && !command && e.state.Establishing? && pf then Connect(e)
    else if kind == Dm && !command && e.state.Establishing? && pf then Release(e)
    else if kind == Disc && command then
      if e.state.Connected? then Release(Respond(e, Ua, pf, [])) else Respond(e, Dm, pf, [])
    else if kind == Dm && !command && e.state.Connected? && (!pf || e.recovery) then Release(e)
    else if kind == Frmr && !command && e.state.Connected? then Release(e)
    else if kind == Ui && command && e.state.Connected? then BreakSignal(e, pf, info)
    else e
  }

  /** V(A) moved up to N(R), and whether N(R) was in the window (sections 8.4.3.2 and 8.5.2). */
  function Acknowledge(e: End, nr: Seven, now: int): (End, bool) {
    var acked := After(nr, e.va);
    if acked > |e.sent| then (e, false)
    else
      var inFlight := After(e.vs, e.va);
      var e1 := e.(sent := e.sent[acked..], va := nr, vs := if inFlight < acked then nr else e.vs);
      (if acked > 0 && !e.recovery then
          e1.(timer := if e1.vs != e1.va then Some(now + e.t401) else None)
        else e1, true)
  }

  /** What an I frame does once its N(R) is taken. */
  function Informed(e: End, ns: Seven, poll: bool, info: Octets): End {
    if ns == e.vr then
      e.(received := e.received + info, vr := (e.vr + 1) % MODULUS, reject := false,
        owed := if poll then e.owed.(finalRr := true) else e.owed.(ack := true))
    else if !e.reject then
      e.(reject := true, owed := e.owed.(reject := Some(poll)))
    else if poll then
      e.(owed := e.owed.(finalRr := true))
    else e
  }

  function Information(e: End, ns: Seven, nr: Seven, poll: bool, info: Octets, now: int): End {
    var (e1, valid) := Acknowledge(e, nr, now);
    if valid then Informed(e1, ns, poll, info) else Release(e1)
  }

  /** The answer to a poll ends timer recovery, and what was sent since is sent again. */
  function Recovered(e: End, kind: Supervisory, nr: Seven, now: int): End {
    e.(recovery := false, vs := nr, peerBusy := kind == Rnr,
      timer := if kind == Rnr then Some(now + e.t401) else None)
  }

  /** What the kind of a supervisory frame says of the far end's receiver. */
  function Marked(e: End, kind: Supervisory, nr: Seven, now: int): End {
    if kind == Rnr then
      e.(peerBusy := true, timer := if e.recovery then e.timer else Some(now + e.t401))
    else if kind == Rej && !e.recovery then
      e.(peerBusy := false, vs := nr, timer := None)
    else e.(peerBusy := false)
  }

  /** What a supervisory frame does once its N(R) is taken. */
  function Supervised(e: End, kind: Supervisory, nr: Seven, pf: bool, command: bool, now: int): End {
    if !command && pf && e.recovery then Recovered(e, kind, nr, now)
    else Marked(if command && pf then e.(owed := e.owed.(finalRr := true)) else e, kind, nr, now)
  }

  function ReceiveSupervisory(e: End, kind: Supervisory, nr: Seven, pf: bool, command: bool, now: int): End {
    if kind == Srej then Release(e)
    else
      var (e1, valid) := Acknowledge(e, nr, now);
      if valid then Supervised(e1, kind, nr, pf, command, now) else Release(e1)
  }

  function ReceiveNumbered(e0: End, frame: Frame, command: bool, now: int): End
    requires !frame.control.U?
  {
    // A numbered frame stands in for a UA that did not get here (section 8.3.2.1).
    var e := if e0.state.Establishing? then Connect(e0) else e0;
    if !e.state.Connected? then e
    else
      match frame.control
      case I(ns, nr, poll) => if command then Information(e, ns, nr, poll, frame.info, now) else e
      case S(kind, nr, pf) => ReceiveSupervisory(e, kind, nr, pf, command, now)
  }

  /** The end after the octets of a frame, well-formed or not. */
  function Receive(e0: End, bytes: Octets, now: int): End {
    var e := Expire(e0, now);
    match Parse(bytes)
    case Invalid => e
    case Undefined => if e.state.Connected? then Release(e) else e
    case Ok(frame) =>
      var command := frame.cr == !e.originate;
      if frame.control.U? then ReceiveUnnumbered(e, frame.control.command, frame.control.pf, command, frame.info)
      else ReceiveNumbered(e, frame, command, now)
  }
}
