/** The end of `Lapm` as an object: each method leaves it in the state that the function of its name gives. */
module LapmClass {
  import opened Prelude
  import opened LapmFrame
  import XidField
  import opened Negotiation
  import Lapm

  class LapmEnd {
    const originate: bool
    const t401: nat
    const offer: Option<Directions>
    var state: Lapm.State
    var timer: Option<int>
    var retries: nat
    var n401: Word
    var k: Octet
    var vs: Seven
    var va: Seven
    var vr: Seven
    var rb: bool
    /** What `LapmPair.EndOk` has as the newest frames of the log: those numbered V(A) and up. */
    var sent: seq<Octets>
    var resent: nat
    var queue: Octets
    var received: Octets
    var peerBusy: bool
    var reject: bool
    var recovery: bool
    /** These go before any numbered frame; the flag of each is what `LapmTimers.Timed` looks for. */
    var urgent: seq<(Frame, bool)>
    var owed: Lapm.Owed
    var compression: Option<Directions>

    ghost function View(): Lapm.End
      reads this
    {
      Lapm.End(originate, state, t401, timer, retries, n401, k, vs, va, vr, rb, sent, resent, queue, received,
        peerBusy, reject, recovery, urgent, owed, offer, compression)
    }

    /** The state of `Lapm.Originator`, with its XID command ready to go. */
    constructor Originate(t401: nat, offer: Option<Directions>)
      ensures View() == Lapm.Originator(t401, offer)
    {
      this.originate, this.state, this.t401, this.offer := true, Lapm.Negotiating, t401, offer;
      timer, retries, n401, k := None, 0, Lapm.DEFAULT_N401, Lapm.DEFAULT_K;
      vs, va, vr, rb := 0, 0, 0, false;
      sent, resent, queue, received := [], 0, [], [];
      peerBusy, reject, recovery := false, false, false;
      urgent, owed, compression := [], Lapm.NothingOwed, None;
      new;
      SendXid();
    }

    /** An answerer, which gives up if no connection is established within N400 times `t401`. */
    constructor Answer(t401: nat, now: int, offer: Option<Directions>)
      ensures View() == Lapm.Answerer(t401, now, offer)
    {
      this.originate, this.state, this.t401, this.offer := false, Lapm.Waiting(now + t401 * Lapm.N400), t401, offer;
      timer, retries, n401, k := None, 0, Lapm.DEFAULT_N401, Lapm.DEFAULT_K;
      vs, va, vr, rb := 0, 0, 0, false;
      sent, resent, queue, received := [], 0, [], [];
      peerBusy, reject, recovery := false, false, false;
      urgent, owed, compression := [], Lapm.NothingOwed, None;
    }

    method Send(bytes: Octets)
      modifies this`queue
      ensures View() == Lapm.Send(old(View()), bytes)
    {
      if !state.Released? {
        queue := queue + bytes;
      }
    }

    /** All that was delivered since the last time, and nothing else changed. */
    method TakeReceived() returns (bytes: Octets)
      modifies this`received
      ensures bytes == old(received) && View() == old(View()).(received := [])
    {
      bytes := received;
      received := [];
    }

    method Release()
      modifies this`state, this`timer, this`queue, this`sent
      ensures View() == Lapm.Release(old(View()))
    {
      state := Lapm.Released;
      timer := None;
      queue := [];
      sent := [];
    }

    method Urge(command: bool, kind: Unnumbered, pf: bool, info: Octets, timed: bool)
      modifies this`urgent
      ensures View() == Lapm.Urge(old(View()), Lapm.UnnumberedFrame(old(View()), command, kind, pf, info), timed)
    {
      urgent := urgent + [(Frame(command == originate, U(kind, pf), info), timed)];
    }

    method SendXid()
      modifies this`urgent
      ensures View() == Lapm.SendXid(old(View()))
    {
      Urge(true, Xid, false, XidField.Bytes(Lapm.OwnXid(offer)), true);
    }

    method SendSabme()
      modifies this`urgent
      ensures View() == Lapm.SendSabme(old(View()))
    {
      Urge(true, Sabme, true, [], true);
    }

    method Respond(kind: Unnumbered, pf: bool, info: Octets)
      modifies this`urgent
      ensures View() == Lapm.Respond(old(View()), kind, pf, info)
    {
      Urge(false, kind, pf, info, false);
    }

    method ResetNumbers()
      modifies this`vs, this`va, this`vr, this`sent
      ensures View() == old(View()).(vs := 0, va := 0, vr := 0, sent := [])
    {
      vs, va, vr, sent := 0, 0, 0, [];
    }

    method ClearConditions()
      modifies this`peerBusy, this`reject, this`recovery
      ensures View() == old(View()).(peerBusy := false, reject := false, recovery := false)
    {
      peerBusy, reject, recovery := false, false, false;
    }

    method Connect()
      modifies this`state, this`timer, this`retries, this`vs, this`va, this`vr, this`sent
      modifies this`peerBusy, this`reject, this`recovery
      ensures View() == Lapm.Connect(old(View()))
    {
      state, timer, retries := Lapm.Connected, None, 0;
      ResetNumbers();
      ClearConditions();
    }

    /** T401 expired before the connection was established. */
    method Retry()
      requires state.Negotiating? || state.Establishing?
      modifies this
      ensures View() == Lapm.Retry(old(View()))
    {
      hide Lapm.SendXid, Lapm.SendSabme, Lapm.Release;
      timer, retries := None, retries + 1;
      if retries >= Lapm.N400 {
        Release();
      } else if state.Negotiating? {
        SendXid();
      } else {
        SendSabme();
      }
    }

    method EnterRecovery()
      modifies this`timer, this`retries, this`recovery
      ensures var e := old(View());
        View() == e.(timer := None, recovery := true, retries := if e.recovery then e.retries + 1 else 0)
    {
      timer, retries, recovery := None, if recovery then retries + 1 else 0, true;
    }

    /** T401 expired on a connection: timer recovery, by polling the far end. */
    method Recover()
      modifies this
      ensures View() == Lapm.Recover(old(View()))
    {
      hide Lapm.Release;
      EnterRecovery();
      if retries >= Lapm.N400 {
        Release();
      } else {
        owed := owed.(poll := true);
      }
    }

    method Expire(now: int)
      modifies this
      ensures View() == Lapm.Expire(old(View()), now)
    {
      hide Lapm.Retry, Lapm.Recover, Lapm.Release;
      if state.Waiting? && now >= state.deadline {
        Release();
        return;
      }
      if timer.None? || now < timer.value {
        return;
      }
      if state.Negotiating? || state.Establishing? {
        Retry();
      } else if state.Connected? {
        Recover();
      } else {
        timer := None;
      }
    }

    /** The oldest frames need not be kept any longer. */
    method Forget(acked: nat, nr: Seven)
      requires acked <= |sent|
      modifies this`sent, this`va
      ensures View() == old(View()).(sent := old(sent)[acked..], va := nr)
    {
      sent, va := sent[acked..], nr;
    }

    /** The modelled window after N(R), and whether it was valid. */
    method Acknowledge(nr: Seven, now: int) returns (valid: bool)
      modifies this`sent, this`va, this`vs, this`timer
      ensures (View(), valid) == Lapm.Acknowledge(old(View()), nr, now)
    {
      var acked := (nr - va) % Lapm.MODULUS;
      if acked > |sent| {
        return false;
      }
      var inFlight := (vs - va) % Lapm.MODULUS;
      Forget(acked, nr);
      if inFlight < acked {
        vs := nr;
      }
      if acked > 0 && !recovery {
        timer := if vs != va then Some(now + t401) else None;
      }
      valid := true;
    }

    method Accept(info: Octets)
      modifies this`received, this`vr, this`reject
      ensures var e := old(View());
        View() == e.(received := e.received + info, vr := (e.vr + 1) % Lapm.MODULUS, reject := false)
    {
      received, vr, reject := received + info, (vr + 1) % Lapm.MODULUS, false;
    }

    method Inform(ns: Seven, poll: bool, info: Octets)
      modifies this`received, this`vr, this`reject, this`owed
      ensures View() == Lapm.Informed(old(View()), ns, poll, info)
    {
      if ns == vr {
        Accept(info);
        owed := if poll then owed.(finalRr := true) else owed.(ack := true);
      } else if !reject {
        reject, owed := true, owed.(reject := Some(poll));
      } else if poll {
        owed := owed.(finalRr := true);
      }
    }

    method Information(ns: Seven, nr: Seven, poll: bool, info: Octets, now: int)
      modifies this
      ensures View() == Lapm.Information(old(View()), ns, nr, poll, info, now)
    {
      hide Lapm.Acknowledge, Lapm.Informed, Lapm.Release;
      var valid := Acknowledge(nr, now);
      if !valid {
        Release();
        return;
      }
      Inform(ns, poll, info);
    }

    method EndRecovery(kind: Supervisory, nr: Seven, now: int)
      modifies this`recovery, this`vs, this`peerBusy, this`timer
      ensures View() == Lapm.Recovered(old(View()), kind, nr, now)
    {
      recovery, vs, peerBusy := false, nr, kind == Rnr;
      timer := if kind == Rnr then Some(now + t401) else None;
    }

    method Mark(kind: Supervisory, nr: Seven, now: int)
      modifies this`vs, this`peerBusy, this`timer
      ensures View() == Lapm.Marked(old(View()), kind, nr, now)
    {
      if kind == Rnr {
        peerBusy := true;
        if !recovery {
          timer := Some(now + t401);
        }
      } else if kind == Rej && !recovery {
        peerBusy, vs, timer := false, nr, None;
      } else {
        peerBusy := false;
      }
    }

    method Supervise(kind: Supervisory, nr: Seven, pf: bool, command: bool, now: int)
      modifies this
      ensures View() == Lapm.Supervised(old(View()), kind, nr, pf, command, now)
    {
      hide Lapm.Recovered, Lapm.Marked;
      if !command && pf && recovery {
        EndRecovery(kind, nr, now);
        return;
      }
      if command && pf {
        owed := owed.(finalRr := true);
      }
      Mark(kind, nr, now);
    }

    method SupervisoryIn(kind: Supervisory, nr: Seven, pf: bool, command: bool, now: int)
      modifies this
      ensures View() == Lapm.ReceiveSupervisory(old(View()), kind, nr, pf, command, now)
    {
      hide Lapm.Acknowledge, Lapm.Supervised, Lapm.Release;
      if kind == Srej {
        Release();
        return;
      }
      var valid := Acknowledge(nr, now);
      if !valid {
        Release();
        return;
      }
      Supervise(kind, nr, pf, command, now);
    }

    /** Takes the next octets from the queue into `sent`, unless V(S) names a frame that was sent before. */
    method Load()
      modifies this`resent, this`sent, this`queue
      ensures View() == Lapm.Loaded(old(View()))
    {
      if (vs - va) % Lapm.MODULUS < |sent| {
        resent := resent + 1;
      } else {
        var n := Min(|queue|, n401);
        sent, queue := sent + [queue[..n]], queue[n..];
      }
    }

    method Launch(now: int) returns (frame: Frame)
      modifies this`vs, this`owed, this`timer
      ensures (View(), frame) == Lapm.Launched(old(View()), now)
    {
      var index := (vs - va) % Lapm.MODULUS;
      frame := Frame(true == originate, I(vs, vr, false), if index < |sent| then sent[index] else []);
      vs, owed := (vs + 1) % Lapm.MODULUS, owed.(ack := false);
      if timer.None? {
        timer := Some(now + t401);
      }
    }

    method NextIFrame(now: int) returns (frame: Option<Frame>)
      modifies this
      ensures (View(), frame) == Lapm.NextIFrame(old(View()), now)
    {
      hide Lapm.Loaded, Lapm.Launched;
      if peerBusy || recovery {
        return None;
      }
      var index := (vs - va) % Lapm.MODULUS;
      if index >= |sent| && (|sent| >= k || queue == []) {
        return None;
      }
      Load();
      var sending := Launch(now);
      frame := Some(sending);
    }

    function Supervisory(command: bool, kind: Supervisory, pf: bool): (f: Frame)
      reads this
      ensures f == Lapm.SupervisoryFrame(View(), command, kind, pf)
    {
      Frame(command == originate, S(kind, vr, pf), [])
    }

    method NextNumbered(now: int) returns (frame: Option<Frame>)
      modifies this
      ensures (View(), frame) == Lapm.NextNumbered(old(View()), now)
    {
      hide Lapm.NextIFrame;
      if owed.reject.Some? {
        var f := owed.reject.value;
        owed := Lapm.Owed(None, owed.finalRr && !f, owed.poll, false);
        return Some(Supervisory(false, Rej, f));
      }
      if owed.finalRr {
        owed := owed.(finalRr := false, ack := false);
        return Some(Supervisory(false, Rr, true));
      }
      if owed.poll {
        owed := owed.(poll := false, ack := false);
        timer := Some(now + t401);
        return Some(Supervisory(true, Rr, true));
      }
      frame := NextIFrame(now);
      if frame.Some? {
        return;
      }
      NoFrameNoChange(old(View()), now);
      if owed.ack {
        owed := owed.(ack := false);
        return Some(Supervisory(false, Rr, false));
      }
    }

    /** The modelled frame in octets, and the modelled end after it. */
    method NextFrame(now: int) returns (bytes: Option<Octets>)
      modifies this
      ensures var (e, frame) := Lapm.NextFrame(old(View()), now);
        View() == e && bytes == if frame.None? then None else Some(Bytes(frame.value))
    {
      hide Lapm.Expire, Lapm.NextNumbered, Bytes;
      Expire(now);
      if urgent != [] {
        var (frame, timed) := urgent[0];
        urgent := urgent[1..];
        if timed {
          timer := Some(now + t401);
        }
        return Some(Bytes(frame));
      }
      if !state.Connected? {
        return None;
      }
      var frame := NextNumbered(now);
      bytes := if frame.None? then None else Some(Bytes(frame.value));
    }

    method Adopt(theirs: XidField.Xid, agreed: Option<Directions>)
      modifies this`compression, this`n401, this`k
      ensures View() == Lapm.Adopted(old(View()), theirs, agreed)
    {
      compression, n401, k := agreed, Lapm.N401Of(theirs.n401Rx), Lapm.KOf(theirs.kRx);
    }

    /** Adopts what `Lapm.Agree` adopts, and gives its answer or its failure. */
    method Agree(theirs: XidField.Xid) returns (ours: Option<XidField.Xid>)
      modifies this`compression, this`n401, this`k
      ensures var agreed := Lapm.Agree(old(View()), theirs);
        if agreed.None? then ours.None? && View() == old(View()) else ours.Some? && agreed == Some((View(), ours.value))
    {
      hide Negotiation.Answer;
      var reply: Option<XidField.Compression>, agreed := None, compression;
      if !state.Connected? && theirs.compression.Some? {
        match Negotiation.Answer(offer, theirs.compression.value) {
          case ProceduralError => return None;
          case Ok((r, a)) => reply, agreed := Some(r), a;
        }
      }
      Adopt(theirs, agreed);
      ours := Some(
        XidField.Xid(0, Some(n401), Some(Lapm.N401Of(theirs.n401Tx)), Some(k), Some(Lapm.KOf(theirs.kTx)), reply));
    }

    method XidCommand(info: Octets)
      modifies this
      ensures View() == Lapm.XidCommand(old(View()), info)
    {
      hide Lapm.Agree, Lapm.Release, XidField.Parse, XidField.Bytes, Lapm.Respond;
      var theirs := XidField.Parse(info);
      if theirs.Some? {
        var ours := Agree(theirs.value);
        if ours.Some? {
          Respond(Xid, false, XidField.Bytes(ours.value));
        } else {
          Release();
        }
      }
    }

    method Establish()
      modifies this`state, this`retries, this`timer
      ensures View() == old(View()).(state := Lapm.Establishing, retries := 0, timer := None)
    {
      state, retries, timer := Lapm.Establishing, 0, None;
    }

    method XidResponse(info: Octets)
      modifies this
      ensures View() == Lapm.XidResponse(old(View()), info)
    {
      hide Lapm.Release, XidField.Parse, Lapm.SendSabme, Lapm.Adopted, Conclude;
      var theirs := XidField.Parse(info);
      if theirs.Some? {
        var concluded := if offer.None? then Negotiation.Ok(None) else Conclude(offer.value, theirs.value.compression);
        if concluded.ProceduralError? {
          Release();
          return;
        }
        Adopt(theirs.value, concluded.value);
        Establish();
        SendSabme();
      }
    }

    /** The toggled bit and the answer of the model, in place. */
    method BreakSignal(pf: bool, info: Octets)
      modifies this`rb, this`urgent
      ensures View() == Lapm.BreakSignal(old(View()), pf, info)
    {
      if info == [] || info[0] % 128 != Lapm.BRK {
        return;
      }
      if (info[0] >= 128) == rb {
        rb := !rb;
      }
      Respond(Ui, pf, [Lapm.BRKACK + 128 * Bit(rb)]);
    }

    method ReceiveUnnumbered(kind: Unnumbered, pf: bool, command: bool, info: Octets)
      modifies this
      ensures View() == Lapm.ReceiveUnnumbered(old(View()), kind, pf, command, info)
    {
      hide Lapm.XidCommand, Lapm.XidResponse, Lapm.Connect, Lapm.Release, Lapm.Respond, Lapm.BreakSignal;
      if state.Released? {
        return;
      }
      if kind == Xid && command {
        XidCommand(info);
      } else if kind == Xid && state.Negotiating? {
        XidResponse(info);
      } else if kind == Sabme && command && state.Waiting? {
        Connect();
        Respond(Ua, pf, []);
      } else if kind == Sabme && command && state.Connected? {
        if vs == 0 && va == 0 && vr == 0 && sent == [] {
          Respond(Ua, pf, []);
        } else {
          Release();
        }
      } else if kind == Ua && !command && state.Establishing? && pf {
        Connect();
      } else if kind == Dm && !command && state.Establishing? && pf {
        Release();
      } else if kind == Disc && command && state.Connected? {
        Respond(Ua, pf, []);
        Release();
      } else if kind == Disc && command {
        Respond(Dm, pf, []);
      } else if kind == Dm && !command && state.Connected? && (!pf || recovery) {
        Release();
      } else if kind == Frmr && !command && state.Connected? {
        Release();
      } else if kind == Ui && command && state.Connected? {
        BreakSignal(pf, info);
      }
    }

    method ReceiveNumbered(frame: Frame, command: bool, now: int)
      requires !frame.control.U?
      modifies this
      ensures View() == Lapm.ReceiveNumbered(old(View()), frame, command, now)
    {
      hide Lapm.Connect, Lapm.Information, Lapm.ReceiveSupervisory;
      if state.Establishing? {
        Connect();
      }
      if !state.Connected? {
        return;
      }
      match frame.control
      case I(ns, nr, poll) =>
        if command {
          Information(ns, nr, poll, frame.info, now);
        }
      case S(kind, nr, pf) =>
        SupervisoryIn(kind, nr, pf, command, now);
    }

    /** Whatever the octets are, the end becomes what `Lapm.Receive` makes of it. */
    method Receive(bytes: Octets, now: int)
      modifies this
      ensures View() == Lapm.Receive(old(View()), bytes, now)
    {
      hide Lapm.Expire, Lapm.Release, Lapm.ReceiveUnnumbered, Lapm.ReceiveNumbered, Parse;
      Expire(now);
      match Parse(bytes)
      case Invalid =>
      case Undefined =>
        if state.Connected? {
          Release();
        }
      case Ok(frame) =>
        var command := frame.cr == !originate;
        if frame.control.U? {
          ReceiveUnnumbered(frame.control.command, frame.control.pf, command, frame.info);
        } else {
          ReceiveNumbered(frame, command, now);
        }
    }
  }

  lemma NoFrameNoChange(e: Lapm.End, now: int)
    ensures Lapm.NextIFrame(e, now).1.None? ==> Lapm.NextIFrame(e, now).0 == e
  {
  }
}
