/** Codewords survive their packing into octets, however the bits fall. */
module V42Line {
  import opened Prelude
  import opened Arithmetic
  import opened V42Dictionary
  import opened V42bis

  predicate Realigns(code: nat) {
    code == ETM || code == FLUSH
  }

  /** The decoder with no bits in hand. */
  function Bare(d: Dec): Dec {
    d.(bits := 0, count := 0)
  }

  /**
   * What a decoder makes of `n` bits, the binary digits of `v`: whole codewords, none of which
   * realigns, or with `end` the last of which does, that many bits before the end.
   */
  ghost function Chain(d: Dec, v: nat, n: nat, end: Option<nat>): (r: Decoded)
    requires DecOk(d)
    ensures DecOk(r.dec)
    decreases n
  {
    if n == 0 then Decoded(d, [], if end.None? then Fine else Lost)
    else if !d.compressed || n < d.width then Decoded(d, [], Lost)
    else
      var code := Low(v, d.width);
      var r := Decode(d, code);
      if r.status != Fine then r
      else if Realigns(code) then if end == Some(n - d.width) then r else Decoded(d, [], Lost)
      else Continue(r, Chain(r.dec, High(v, d.width), n - d.width, end))
  }

  lemma {:induction false} ChainAppends(d: Dec, v: nat, n: nat, value: nat, pad: nat)
    requires DecOk(d) && d.compressed
    requires Chain(d, v, n, None).status.Fine?
    requires var k := Chain(d, v, n, None).dec; Fits(v, n) && Fits(value, k.width) && Decode(k, value).status.Fine?
    requires Realigns(value) || pad == 0
    ensures var k := Chain(d, v, n, None).dec; k.compressed
    ensures var before := Chain(d, v, n, None); var k := before.dec;
      Chain(d, Join(v, n, value), n + k.width + pad, if Realigns(value) then Some(pad) else None)
        == Continue(before, Decode(k, value))
    decreases n
  {
    hide Decode, Low, High, Join, Fits, DecOk;
    var end := if Realigns(value) then Some(pad) else None;
    var before := Chain(d, v, n, None);
    var k := before.dec;
    WidthOk(d);
    if n == 0 {
      JoinZero(v, 0);
      JoinZero(value, 0);
      FitsNothing(value, d.width);
      var r := Decode(d, value);
      assert [] + r.out == r.out == r.out + [];
    } else {
      var w := d.width;
      SplitJoin(v, n, value, w);
      HighFits(v, n, w);
      var r := Decode(d, Low(v, w));
      StaysCompressed(d, Low(v, w));
      ChainAppends(r.dec, High(v, w), n - w, value, pad);
      var rest := Chain(r.dec, High(v, w), n - w, None);
      assert r.out + (rest.out + Decode(k, value).out) == (r.out + rest.out) + Decode(k, value).out;
    }
  }

  lemma WidthOk(d: Dec)
    requires DecOk(d)
    ensures d.width >= FIRST_WIDTH
  {
  }

  lemma StaysCompressed(d: Dec, code: nat)
    requires DecOk(d) && !Realigns(code) && Decode(d, code).status.Fine?
    ensures var d' := Decode(d, code).dec;
      d'.compressed == d.compressed && d'.bits == d.bits && d'.count == d.count && d'.width >= d.width
  {
    hide Inv;
  }

  /** Whatever bits are in hand, a codeword that does not realign leaves them and does the same. */
  lemma BitsInHand(d: Dec, bits: nat, count: nat, code: nat)
    requires DecOk(d)
    ensures !Realigns(code) ==>
      var held, bare := Decode(d.(bits := bits, count := count), code), Decode(Bare(d), code);
      held == bare.(dec := bare.dec.(bits := bits, count := count)) && bare.dec == Bare(bare.dec)
  {
    hide Inv, Add, String;
  }

  lemma BitsDropped(d: Dec, bits: nat, count: nat, code: nat)
    requires DecOk(d) && Realigns(code) && Fits(bits, count) && count < 8
    ensures Decode(d.(bits := bits, count := count), code) == Decode(Bare(d), code)
    ensures Decode(Bare(d), code).out == []
    ensures Decode(Bare(d), code).dec.bits == Decode(Bare(d), code).dec.count == 0
  {
    hide Decode, Low, High, Inv;
    AlignsAway(d, bits, count, code);
    AlignsAway(d, 0, 0, code);
  }

  lemma AlignsAway(d: Dec, bits: nat, count: nat, code: nat)
    requires DecOk(d) && Realigns(code) && Fits(bits, count) && count < 8
    ensures Decode(d.(bits := bits, count := count), code)
      == Decoded(if code == ETM then Ended(Bare(d)) else Bare(d), [], Fine)
    ensures Decode(d.(bits := bits, count := count), code).dec.bits == 0
    ensures Decode(d.(bits := bits, count := count), code).dec.count == 0
  {
    hide Inv, Low, High, Fits;
    FitsNothing(bits, count);
  }

  /** An octet never completes a second codeword, as none is shorter than nine bits. */
  lemma DrainsOnce(d: Dec)
    requires DecOk(d) && d.compressed && d.width <= d.count < d.width + 8
    requires Fits(d.bits, d.count)
    ensures var code := Low(d.bits, d.width);
      var r := Decode(d.(bits := High(d.bits, d.width), count := d.count - d.width), code);
      r.status.Fine? ==> Drain(d) == r
  {
    hide Inv, Learn, Low, High, Fits, Known, String;
    var code := Low(d.bits, d.width);
    var r := Decode(d.(bits := High(d.bits, d.width), count := d.count - d.width), code);
    if r.status.Fine? {
      ShortStop(d.(bits := High(d.bits, d.width), count := d.count - d.width), code);
      assert Drain(r.dec) == Decoded(r.dec, [], Fine);
      assert r.out + [] == r.out;
    }
  }

  lemma ShortStop(d: Dec, code: nat)
    requires DecOk(d) && d.count < 8 && Decode(d, code).status.Fine?
    ensures Decode(d, code).dec.count < 8
  {
    hide Inv, Add, String;
  }

  /** The bits in flight: those the decoder holds, then those the writer has not completed an octet of. */
  function InFlight(d: Dec, bits: nat): nat {
    Join(d.bits, d.count, bits)
  }

  /** The decoder `k` is where `d` will be once the bits in flight arrive, having put out `owed`. */
  ghost predicate Flies(d: Dec, bits: nat, count: nat, end: Option<nat>, k: Dec, owed: Octets) {
    && DecOk(d)
    && Fits(d.bits, d.count) && Fits(bits, count) && d.count < d.width
    && if d.count == 0 && count == 0 then d == k && owed == []
       else d.compressed && Chain(Bare(d), InFlight(d, bits), d.count + count, end) == Decoded(k, owed, Fine)
  }

  /** The next octet in flight joins the bits in hand. */
  lemma OctetJoins(d: Dec, bits: nat, count: nat)
    requires Fits(d.bits, d.count) && Fits(bits, count) && count >= 8
    ensures Low(bits, 8) < 256 && Fits(High(bits, 8), count - 8)
    ensures var held := Join(d.bits, d.count, Low(bits, 8));
      && Fits(held, d.count + 8)
      && InFlight(d, bits) == Join(held, d.count + 8, High(bits, 8))
  {
    hide Low, High, Join, Fits;
    var o, rest := Low(bits, 8), High(bits, 8);
    LowFits(bits, 8);
    HighFits(bits, count, 8);
    OctetFits(bits);
    JoinFits(d.bits, d.count, o, 8);
    JoinAssociates(d.bits, d.count, o, 8, rest);
  }

  lemma OctetWaits(d: Dec, bits: nat, count: nat, end: Option<nat>, k: Dec, owed: Octets)
    requires Flies(d, bits, count, end, k, owed) && count >= 8 && d.count + 8 < d.width
    ensures Low(bits, 8) < 256
    ensures var r := Step(d, Low(bits, 8));
      r.status.Fine? && r.out == [] && Flies(r.dec, High(bits, 8), count - 8, end, k, owed)
  {
    hide Decode, Low, High, Join, Fits, Inv;
    OctetJoins(d, bits, count);
    OctetFits(bits);
  }

  /** The octet completes a codeword, with `code` and what is left of the bits in hand. */
  lemma OctetCompletes(d: Dec, bits: nat, count: nat)
    requires DecOk(d) && d.compressed && Fits(d.bits, d.count) && Fits(bits, count) && count >= 8
    requires d.count < d.width <= d.count + 8
    ensures Low(bits, 8) < 256
    ensures var held := Join(d.bits, d.count, Low(bits, 8));
      var left, kept := d.count + 8 - d.width, High(held, d.width);
      var code := Low(InFlight(d, bits), d.width);
      var r := Decode(d.(bits := kept, count := left), code);
      && left < 8 && Fits(kept, left)
      && High(InFlight(d, bits), d.width) == Join(kept, left, High(bits, 8))
      && (r.status.Fine? ==> Step(d, Low(bits, 8)) == r)
  {
    hide Decode, Low, High, Join, Fits, Inv, Drain;
    OctetFits(bits);
    OctetJoins(d, bits, count);
    var held := Join(d.bits, d.count, Low(bits, 8));
    DrainsOnce(d.(bits := held, count := d.count + 8));
    SplitJoin(held, d.count + 8, High(bits, 8), d.width);
    HighFits(held, d.count + 8, d.width);
  }

  lemma OctetEnds(d: Dec, bits: nat, count: nat, end: Option<nat>, k: Dec, owed: Octets)
    requires Flies(d, bits, count, end, k, owed) && count >= 8 && d.count + 8 >= d.width
    requires end.Some? ==> end.value < 8 && count % 8 == 0
    requires Realigns(Low(InFlight(d, bits), d.width))
    ensures Low(bits, 8) < 256
    ensures var r := Step(d, Low(bits, 8));
      r.status.Fine? && r.out == owed && Flies(r.dec, High(bits, 8), count - 8, end, k, [])
  {
    hide Decode, Low, High, Join, Fits, Inv, Step;
    OctetCompletes(d, bits, count);
    var held := Join(d.bits, d.count, Low(bits, 8));
    assert count == 8;
    HighFits(bits, count, 8);
    JoinZero(High(bits, 8), 0);
    JoinZero(0, 0);
    BitsDropped(d, High(held, d.width), d.count + 8 - d.width, Low(InFlight(d, bits), d.width));
  }

  lemma OctetDecodes(d: Dec, bits: nat, count: nat, end: Option<nat>, k: Dec, owed: Octets)
    returns (owed': Octets)
    requires Flies(d, bits, count, end, k, owed) && count >= 8 && d.count + 8 >= d.width
    requires !Realigns(Low(InFlight(d, bits), d.width))
    ensures Low(bits, 8) < 256
    ensures var r := Step(d, Low(bits, 8));
      && r.status.Fine? && owed == r.out + owed'
      && Flies(r.dec, High(bits, 8), count - 8, end, k, owed')
  {
    hide Decode, Low, High, Join, Fits, Inv, Step;
    OctetCompletes(d, bits, count);
    var v, n, w := InFlight(d, bits), d.count + count, d.width;
    var held := Join(d.bits, d.count, Low(bits, 8));
    var code := Low(v, w);
    HighFits(bits, count, 8);
    BitsInHand(d, High(held, w), d.count + 8 - w, code);
    StaysCompressed(Bare(d), code);
    JoinZero(High(held, w), 0);
    owed' := Chain(Decode(Bare(d), code).dec, High(v, w), n - w, end).out;
  }

  lemma OctetArrives(d: Dec, bits: nat, count: nat, end: Option<nat>, k: Dec, owed: Octets)
    returns (owed': Octets)
    requires Flies(d, bits, count, end, k, owed) && count >= 8
    requires end.Some? ==> end.value < 8 && count % 8 == 0
    ensures Low(bits, 8) < 256
    ensures var r := Step(d, Low(bits, 8));
      && r.status.Fine? && owed == r.out + owed'
      && Flies(r.dec, High(bits, 8), count - 8, end, k, owed')
  {
    hide Flies, Step, InFlight, Realigns, Low, High;
    if d.count + 8 < d.width {
      OctetWaits(d, bits, count, end, k, owed);
      owed' := owed;
    } else if Realigns(Low(InFlight(d, bits), d.width)) {
      OctetEnds(d, bits, count, end, k, owed);
      owed' := [];
    } else {
      owed' := OctetDecodes(d, bits, count, end, k, owed);
    }
  }

  /** Sends every complete octet of the writer, and hears it. */
  lemma {:induction false} SpilledArrive(d: Dec, bits: nat, count: nat, end: Option<nat>, k: Dec, owed: Octets)
    returns (owed': Octets)
    requires Flies(d, bits, count, end, k, owed)
    requires end.Some? ==> end.value < 8 && count % 8 == 0
    ensures var w, r := Spill(Writer(bits, count, [])), DecodeAll(d, Spill(Writer(bits, count, [])).out);
      && r.status.Fine? && owed == r.out + owed'
      && Flies(r.dec, w.bits, w.count, end, k, owed') && w.count < 8
      && (end.Some? ==> w.count == 0)
    decreases count
  {
    hide Flies, Step, Low, High;
    if count < 8 {
      owed' := owed;
      FliesOk(d, bits, count, end, k, owed);
      assert [] + owed' == owed';
    } else {
      FliesOk(d, bits, count, end, k, owed);
      OctetFits(bits);
      var o, rest := Low(bits, 8), High(bits, 8);
      var owed1 := OctetArrives(d, bits, count, end, k, owed);
      var r := Step(d, o);
      owed' := SpilledArrive(r.dec, rest, count - 8, end, k, owed1);
      SpillPrepends(rest, count - 8, [o], []);
      var tail := Spill(Writer(rest, count - 8, []));
      assert [o] + [] == [] + [o];
      assert Spill(Writer(bits, count, [])) == tail.(out := [o] + tail.out);
      assert ([o] + tail.out)[1..] == tail.out;
      assert r.out + (DecodeAll(r.dec, tail.out).out + owed') == r.out + DecodeAll(r.dec, tail.out).out + owed';
    }
  }

  lemma FliesOk(d: Dec, bits: nat, count: nat, end: Option<nat>, k: Dec, owed: Octets)
    requires Flies(d, bits, count, end, k, owed)
    ensures DecOk(d)
  {
  }

  lemma {:induction false} SpillPrepends(bits: nat, count: nat, a: Octets, b: Octets)
    ensures var spilled := Spill(Writer(bits, count, b));
      Spill(Writer(bits, count, a + b)) == spilled.(out := a + spilled.out)
    decreases count
  {
    hide Low, High;
    if count >= 8 {
      OctetFits(bits);
      assert (a + b) + [Low(bits, 8)] == a + (b + [Low(bits, 8)]);
      SpillPrepends(High(bits, 8), count - 8, a, b + [Low(bits, 8)]);
    }
  }

  lemma Landed(d: Dec, bits: nat, end: Option<nat>, k: Dec, owed: Octets)
    requires Flies(d, bits, 0, end, k, owed)
    ensures d == k && owed == [] && bits == 0 && d.bits == d.count == 0
  {
    hide Decode, Inv, Low, High, Join, Fits;
    JoinZero(bits, 0);
    JoinZero(d.bits, 0);
  }

  /** The octets to the next boundary. */
  function Padding(count: nat): nat {
    (8 - count % 8) % 8
  }

  lemma PaddingIs(count: nat)
    ensures Padding(count)
      == if count >= 8 then Padding(count - 8) else if count == 0 then 0 else 8 - count
  {
  }

  lemma {:induction false} AlignSpills(bits: nat, count: nat, out: Octets)
    ensures Align(Spill(Writer(bits, count, out))) == Spill(Writer(bits, count + Padding(count), out))
    decreases count
  {
    hide Low, High, Join, Padding;
    PaddingIs(count);
    if count >= 8 {
      OctetFits(bits);
      AlignSpills(High(bits, 8), count - 8, out + [Low(bits, 8)]);
    } else {
      JoinZero(bits, count);
    }
  }

  /** After hearing what the writer has put out, `d0` flies to `k`, with `total` as all it has decoded there. */
  ghost predicate Reaches(d0: Dec, w: Writer, k: Dec, total: Octets) {
    && DecOk(d0) && w.count < 8
    && var r := DecodeAll(d0, w.out);
    && r.status.Fine? && r.out <= total
    && Flies(r.dec, w.bits, w.count, None, k, total[|r.out|..])
  }

  lemma Appended(d: Dec, bits: nat, count: nat, k: Dec, owed: Octets, value: nat, pad: nat)
    requires Flies(d, bits, count, None, k, owed) && k.compressed && DecOk(k)
    requires Fits(value, k.width) && Decode(k, value).status.Fine?
    requires Realigns(value) || pad == 0
    ensures Flies(d, Join(bits, count, value), count + k.width + pad, if Realigns(value) then Some(pad) else None,
      Decode(k, value).dec, owed + Decode(k, value).out)
  {
    hide Decode, Join, Fits, Inv;
    JoinAssociates(d.bits, d.count, bits, count, value);
    JoinFits(d.bits, d.count, bits, count);
    JoinFits(bits, count, value, k.width);
    FitsMore(Join(bits, count, value), count + k.width, count + k.width + pad);
    if d.count == 0 && count == 0 {
      JoinZero(d.bits, 0);
      JoinZero(bits, 0);
    }
    ChainAppends(Bare(d), InFlight(d, bits), d.count + count, value, pad);
  }

  lemma PutReaches(d0: Dec, w: Writer, k: Dec, total: Octets, value: nat)
    requires Reaches(d0, w, k, total) && k.compressed && DecOk(k)
    requires Fits(value, k.width) && Decode(k, value).status.Fine? && !Realigns(value)
    ensures Reaches(d0, PutBits(w, value, k.width), Decode(k, value).dec, total + Decode(k, value).out)
  {
    hide Flies, Step, Decode, Join, Low, High, Fits, Inv;
    var r := DecodeAll(d0, w.out);
    var owed := total[|r.out|..];
    Appended(r.dec, w.bits, w.count, k, owed, value, 0);
    var k', out := Decode(k, value).dec, Decode(k, value).out;
    var bits, count := Join(w.bits, w.count, value), w.count + k.width;
    var owed' := SpilledArrive(r.dec, bits, count, None, k', owed + out);
    Arrives(d0, w.out, bits, count, total + out, owed + out, owed');
  }

  lemma Arrives(d0: Dec, sent: Octets, bits: nat, count: nat, total: Octets, owed: Octets, owed': Octets)
    requires DecOk(d0) && DecodeAll(d0, sent).status.Fine?
    requires var r := DecodeAll(d0, sent);
      && total == r.out + owed
      && DecodeAll(r.dec, Spill(Writer(bits, count, [])).out).status.Fine?
      && owed == DecodeAll(r.dec, Spill(Writer(bits, count, [])).out).out + owed'
    ensures var w, w0 := Spill(Writer(bits, count, sent)), Spill(Writer(bits, count, []));
      var r, r' := DecodeAll(d0, sent), DecodeAll(d0, w.out);
      && w == w0.(out := w.out)
      && r'.status.Fine? && r'.dec == DecodeAll(r.dec, w0.out).dec
      && r'.out <= total && total[|r'.out|..] == owed'
  {
    hide Step, Inv, Low, High;
    SpillPrepends(bits, count, sent, []);
    assert sent + [] == sent;
    DecodesInParts(d0, sent, Spill(Writer(bits, count, [])).out);
  }

  lemma AlignReaches(d0: Dec, w: Writer, k: Dec, total: Octets, value: nat)
    requires Reaches(d0, w, k, total) && k.compressed && DecOk(k)
    requires Fits(value, k.width) && Realigns(value)
    ensures var w' := Align(PutBits(w, value, k.width));
      w'.count == 0 && Reaches(d0, w', Decode(k, value).dec, total)
  {
    hide Flies, Step, Join, Low, High, Fits, Inv, Add, String;
    var r := DecodeAll(d0, w.out);
    var owed := total[|r.out|..];
    var bits, count := Join(w.bits, w.count, value), w.count + k.width;
    var pad := Padding(count);
    Appended(r.dec, w.bits, w.count, k, owed, value, pad);
    var k' := Decode(k, value).dec;
    assert owed + [] == owed;
    var owed' := SpilledArrive(r.dec, bits, count + pad, Some(pad), k', owed);
    Arrives(d0, w.out, bits, count + pad, total, owed, owed');
    AlignSpills(bits, count, w.out);
    Lands(DecodeAll(r.dec, Spill(Writer(bits, count + pad, [])).out).dec, Spill(Writer(bits, count + pad, [])).bits,
      Some(pad), k', owed');
  }

  lemma Lands(d: Dec, bits: nat, end: Option<nat>, k: Dec, owed: Octets)
    requires Flies(d, bits, 0, end, k, owed)
    ensures Flies(d, bits, 0, None, k, owed)
  {
    Landed(d, bits, end, k, owed);
  }

  lemma EmitReaches(d0: Dec, w: Writer, k: Dec, total: Octets, octets: Octets)
    requires Reaches(d0, w, k, total) && w.count == 0 && DecOk(k)
    requires var r := DecodeAll(k, octets); r.status.Fine? && r.dec.bits == r.dec.count == 0
    ensures Reaches(d0, w.(out := w.out + octets), DecodeAll(k, octets).dec, total + DecodeAll(k, octets).out)
  {
    hide Step, Inv, Chain, Fits, Join;
    var r := DecodeAll(d0, w.out);
    Landed(r.dec, w.bits, None, k, total[|r.out|..]);
    JoinZero(0, 0);
    DecodesInParts(d0, w.out, octets);
    assert total == r.out;
  }
}
