/** The V.42 bis encoder and decoder as values: what one character, flush or octet does to them. */
module V42bis {
  import opened Prelude
  import opened Arithmetic
  import opened V42Dictionary

  const ETM := 0
  const FLUSH := 1
  const STEPUP := 2

  const ECM: Octet := 0
  const EID: Octet := 1
  const RESET: Octet := 2
  const ESCAPE_STEP := 51

  const TEST_WINDOW := 512
  const FIRST_WIDTH := 9

  datatype Error = StepupPastMaximum | CodewordIsNextEmpty | EmptyEntry | ReservedCommand

  // The matcher of section 6.3, which encoder and transparent decoder share.

  datatype Matcher = Matcher(current: Option<nat>, lastCreated: Option<nat>, exception: bool)

  const NewMatcher := Matcher(None, None, false)

  datatype Pushed = Pushed(matcher: Matcher, dict: Dict, ended: Option<nat>)

  ghost predicate MatcherOk(m: Matcher, d: Dict) {
    Inv(d) && (m.current.Some? ==> Known(d, m.current.value))
  }

  /** One character: the string in hand grows, or ends with its codeword, and the dictionary may gain an entry. */
  ghost function Push(m: Matcher, d: Dict, c: Octet): Pushed
    requires MatcherOk(m, d)
  {
    if m.current.None? then
      Pushed(m.(current := Some(Root(c)), exception := false), d, None)
    else
      var s := m.current.value;
      var child := Child(d, s, c);
      if !m.exception && child.Some? && child != m.lastCreated then
        Pushed(m.(current := child), d, None)
      else
        var (d', made) := Add(d, s, c);
        Pushed(Matcher(Some(Root(c)), made, false), d', if m.exception then None else Some(s))
  }

  lemma PushKeepsOk(m: Matcher, d: Dict, c: Octet)
    requires MatcherOk(m, d)
    ensures var p := Push(m, d, c);
      && MatcherOk(p.matcher, p.dict) && p.matcher.current.Some? && !p.matcher.exception
      && p.dict.parameters == d.parameters
  {
    if m.current.Some? {
      AddKeepsInv(d, m.current.value, c);
    }
  }

  // The bits that wait for an octet to fill (section 7.5).

  datatype Writer = Writer(bits: nat, count: nat, out: Octets)

  function Spill(w: Writer): Writer
    decreases w.count
  {
    if w.count < 8 then w
    else
      OctetFits(w.bits);
      Spill(Writer(High(w.bits, 8), w.count - 8, w.out + [Low(w.bits, 8)]))
  }

  function PutBits(w: Writer, value: nat, width: nat): Writer {
    Spill(Writer(Join(w.bits, w.count, value), w.count + width, w.out))
  }

  function Align(w: Writer): Writer {
    if 0 < w.count < 8 then PutBits(w, 0, 8 - w.count) else w
  }

  // The encoder.

  datatype Enc = Enc(
    dict: Dict,
    matcher: Matcher,
    compressed: bool,
    escape: Octet,
    width: nat,
    writer: Writer,
    windowCharacters: nat,
    windowBits: nat)

  ghost function NewEnc(parameters: Parameters): (e: Enc)
    requires parameters.Valid()
    ensures MatcherOk(e.matcher, e.dict)
  {
    NewDictOk(parameters);
    Enc(NewDict(parameters), NewMatcher, false, 0, FIRST_WIDTH, Writer(0, 0, []), 0, 0)
  }

  function NextEscape(escape: Octet, c: Octet): Octet {
    if c == escape then (escape + ESCAPE_STEP) % 256 else escape
  }

  function Put(e: Enc, code: nat): Enc {
    e.(writer := PutBits(e.writer, code, e.width))
  }

  /** Sends `code` and the STEPUPs it needs before it (section 7.4), and counts their bits. */
  function Codeword(e: Enc, code: nat): (Enc, nat)
    decreases code - Pow2(e.width)
  {
    if code >= Pow2(e.width) then
      var (e', bits) := Codeword(Put(e, STEPUP).(width := e.width + 1), code);
      (e', e.width + bits)
    else
      (Put(e, code), e.width)
  }

  function WidthFor(e: Enc, code: nat): nat {
    if BitLength(code) > e.width then BitLength(code) else e.width
  }

  function Emit(e: Enc, octets: Octets): Enc {
    e.(writer := e.writer.(out := e.writer.out + octets))
  }

  /** The mode for the next window, from the bits this one took or would have taken (section 7.8). */
  function Test(e: Enc): Enc {
    var raw, bits := e.windowCharacters * 8, e.windowBits;
    var cleared := e.(windowCharacters := 0, windowBits := 0);
    var excepted := e.matcher.(exception := true);
    if !e.compressed && bits * 4 < raw * 3 then
      Emit(cleared, [e.escape, ECM]).(compressed := true, matcher := excepted)
    else if e.compressed && bits > raw then
      var sent := if e.matcher.current.Some? && !e.matcher.exception
        then Codeword(cleared, e.matcher.current.value).0 else cleared;
      var ended := Put(sent, ETM);
      ended.(writer := Align(ended.writer), compressed := false, matcher := excepted)
    else cleared
  }

  /** The characters sent as they are, the escape character with its EID. */
  function Plain(e: Enc, c: Octet): Enc {
    Emit(e, if c == e.escape then [c, EID] else [c])
  }

  /** The encoder after a character that ended the string of codeword `ended`, or none. */
  ghost function SendEnded(e: Enc, ended: Option<nat>, c: Octet): Enc {
    if e.compressed then
      if ended.Some? then
        var (sent, bits) := Codeword(e, ended.value);
        sent.(windowBits := e.windowBits + bits)
      else e
    else
      Plain(if ended.Some? then e.(windowBits := e.windowBits + WidthFor(e, ended.value)) else e, c)
  }

  /** What sending one character does, before the window it belongs to is tested. */
  ghost function Send(e: Enc, c: Octet): Enc
    requires MatcherOk(e.matcher, e.dict)
  {
    var p := Push(e.matcher, e.dict, c);
    var e1 := SendEnded(e.(matcher := p.matcher, dict := p.dict), p.ended, c);
    e1.(escape := NextEscape(e.escape, c), windowCharacters := e.windowCharacters + 1)
  }

  lemma {:induction false} CodewordWrites(e: Enc, code: nat)
    ensures var e' := Codeword(e, code).0;
      e' == e.(width := e'.width, writer := e'.writer) && e'.width >= e.width
    decreases code - Pow2(e.width)
  {
    hide Spill;
    if code >= Pow2(e.width) {
      CodewordWrites(Put(e, STEPUP).(width := e.width + 1), code);
    }
  }

  lemma SendKeepsOk(e: Enc, c: Octet)
    requires MatcherOk(e.matcher, e.dict)
    ensures var e' := Send(e, c);
      MatcherOk(e'.matcher, e'.dict) && e'.matcher.current.Some? && !e'.matcher.exception
    ensures var e' := Test(Send(e, c)); MatcherOk(e'.matcher, e'.dict)
  {
    hide Push, Inv, Codeword, Known;
    PushKeepsOk(e.matcher, e.dict, c);
    var p := Push(e.matcher, e.dict, c);
    var e1 := e.(matcher := p.matcher, dict := p.dict);
    if e.compressed && p.ended.Some? {
      CodewordWrites(e1, p.ended.value);
    }
    var sent := Send(e, c);
    CodewordWrites(sent.(windowCharacters := 0, windowBits := 0), sent.matcher.current.value);
  }

  ghost function Character(e: Enc, c: Octet): (r: Enc)
    requires MatcherOk(e.matcher, e.dict)
    ensures MatcherOk(r.matcher, r.dict)
  {
    SendKeepsOk(e, c);
    var sent := Send(e, c);
    if sent.windowCharacters == TEST_WINDOW then Test(sent) else sent
  }

  /** Nothing is held by the encoder afterwards (section 7.9). */
  function Flush(e: Enc): Enc {
    if e.compressed && !e.matcher.exception && e.matcher.current.Some? then
      var sent := Codeword(e, e.matcher.current.value).0;
      var excepted := sent.(matcher := sent.matcher.(exception := true));
      if sent.writer.count == 0 then excepted
      else
        var ended := Put(excepted, FLUSH);
        ended.(writer := Align(ended.writer))
    else e
  }

  /** What the encoder's owner may ask of it. */
  datatype Op = Data(text: Octets) | Idle

  ghost function Encode(e: Enc, text: Octets): (r: Enc)
    requires MatcherOk(e.matcher, e.dict)
    ensures MatcherOk(r.matcher, r.dict)
    decreases |text|
  {
    if text == [] then e else Encode(Character(e, text[0]), text[1..])
  }

  ghost function Perform(e: Enc, op: Op): (r: Enc)
    requires MatcherOk(e.matcher, e.dict)
    ensures MatcherOk(r.matcher, r.dict)
  {
    match op
    case Data(text) => Encode(e, text)
    case Idle =>
      (if e.matcher.current.Some? then CodewordWrites(e, e.matcher.current.value); Flush(e) else Flush(e))
  }

  /** The encoder after any interleaving of chunks and flushes; its output is all it ever sent. */
  ghost function Run(e: Enc, ops: seq<Op>): (r: Enc)
    requires MatcherOk(e.matcher, e.dict)
    ensures MatcherOk(r.matcher, r.dict)
    decreases |ops|
  {
    if ops == [] then e else Run(Perform(e, ops[0]), ops[1..])
  }

  function TextOf(ops: seq<Op>): Octets {
    if ops == [] then [] else (if ops[0].Data? then ops[0].text else []) + TextOf(ops[1..])
  }

  // The decoder.

  datatype Dec = Dec(
    dict: Dict,
    matcher: Matcher,
    compressed: bool,
    escape: Octet,
    escaped: bool,
    width: nat,
    bits: nat,
    count: nat,
    previous: Option<nat>)

  ghost function NewDec(parameters: Parameters): (d: Dec)
    requires parameters.Valid()
    ensures DecOk(d)
  {
    NewDictOk(parameters);
    Dec(NewDict(parameters), NewMatcher, false, 0, false, FIRST_WIDTH, 0, 0, None)
  }

  /** Lost: a string that an update must extend is no longer in the dictionary. No encoder leads a decoder there. */
  datatype Status = Fine | Failed(error: Error) | Lost

  datatype Decoded = Decoded(dec: Dec, out: Octets, status: Status)

  ghost predicate DecOk(d: Dec) {
    Inv(d.dict) && d.width >= FIRST_WIDTH
  }

  function Cycled(escape: Octet, text: Octets): Octet
    decreases |text|
  {
    if text == [] then escape else Cycled(NextEscape(escape, text[0]), text[1..])
  }

  function Aligned(d: Dec): Dec {
    var drop := d.count % 8;
    d.(bits := High(d.bits, drop), count := d.count - drop)
  }

  /** Out of compressed mode, with the last string decoded as the one to extend. */
  function Ended(d: Dec): Dec {
    d.(compressed := false, matcher := Matcher(d.previous, None, true))
  }

  ghost function Learn(d: Dec, code: nat): Dec
    requires DecOk(d) && Known(d.dict, code) && (d.previous.Some? ==> Known(d.dict, d.previous.value))
  {
    var text := String(d.dict, code);
    var dict := if d.previous.Some? then Add(d.dict, d.previous.value, text[0]).0 else d.dict;
    d.(dict := dict, previous := Some(code), escape := Cycled(d.escape, text))
  }

  lemma LearnKeepsInv(d: Dec, code: nat)
    requires DecOk(d) && Known(d.dict, code) && (d.previous.Some? ==> Known(d.dict, d.previous.value))
    ensures DecOk(Learn(d, code))
  {
    if d.previous.Some? {
      AddKeepsInv(d.dict, d.previous.value, String(d.dict, code)[0]);
    }
  }

  /** What the decoder does with one codeword. */
  ghost function Decode(d: Dec, code: nat): (r: Decoded)
    requires DecOk(d)
    ensures DecOk(r.dec)
  {
    if code == ETM then
      Decoded(Ended(Aligned(d)), [], Fine)
    else if code == FLUSH then
      Decoded(Aligned(d), [], Fine)
    else if code == STEPUP then
      Decoded(d.(width := d.width + 1), [],
        if d.width + 1 > d.dict.parameters.MaxBits() then Failed(StepupPastMaximum) else Fine)
    else if code == d.dict.next then
      Decoded(d, [], Failed(CodewordIsNextEmpty))
    else if !Known(d.dict, code) then
      Decoded(d, [], Failed(EmptyEntry))
    else if d.previous.Some? && !Known(d.dict, d.previous.value) then
      Decoded(d, [], Lost)
    else
      LearnKeepsInv(d, code);
      Decoded(Learn(d, code), String(d.dict, code), Fine)
  }

  function Continue(first: Decoded, rest: Decoded): Decoded {
    Decoded(rest.dec, first.out + rest.out, rest.status)
  }

  lemma ContinueAssociates(first: Decoded, second: Decoded, rest: Decoded)
    ensures Continue(first, Continue(second, rest)) == Continue(Decoded(second.dec, first.out + second.out, Fine), rest)
  {
    assert first.out + (second.out + rest.out) == first.out + second.out + rest.out;
  }

  /** Every codeword whose bits are all there. */
  ghost function Drain(d: Dec): (r: Decoded)
    requires DecOk(d)
    ensures DecOk(r.dec)
    decreases d.count
  {
    if d.compressed && d.count >= d.width then
      var code := Low(d.bits, d.width);
      var r := Decode(d.(bits := High(d.bits, d.width), count := d.count - d.width), code);
      if r.status.Fine? then Continue(r, Drain(r.dec)) else r
    else
      Decoded(d, [], Fine)
  }

  lemma DrainSteps(d: Dec)
    requires DecOk(d)
    ensures if d.compressed && d.count >= d.width then
        var r := Decode(d.(bits := High(d.bits, d.width), count := d.count - d.width), Low(d.bits, d.width));
        Drain(d) == if r.status.Fine? then Continue(r, Drain(r.dec)) else r
      else Drain(d) == Decoded(d, [], Fine)
  {
    hide Decode, Low, High;
  }

  ghost function Hear(d: Dec, c: Octet): (r: Decoded)
    requires DecOk(d)
    ensures DecOk(r.dec)
  {
    if MatcherOk(d.matcher, d.dict) then
      PushKeepsOk(d.matcher, d.dict, c);
      var p := Push(d.matcher, d.dict, c);
      Decoded(d.(matcher := p.matcher, dict := p.dict), [c], Fine)
    else
      Decoded(d, [], Lost)
  }

  ghost function Transparent(d: Dec, octet: Octet): (r: Decoded)
    requires DecOk(d)
    ensures DecOk(r.dec)
  {
    if d.escaped then
      var d1 := d.(escaped := false);
      if octet == ECM then
        Decoded(d1.(compressed := true, previous := d.matcher.current, bits := 0, count := 0), [], Fine)
      else if octet == EID then
        var r := Hear(d1, d.escape);
        if r.status.Fine? then r.(dec := r.dec.(escape := NextEscape(d.escape, d.escape))) else r
      else if octet == RESET then
        Decoded(NewDec(d.dict.parameters), [], Fine)
      else
        Decoded(d1, [], Failed(ReservedCommand))
    else if octet == d.escape then
      Decoded(d.(escaped := true), [], Fine)
    else
      Hear(d, octet)
  }

  ghost function Step(d: Dec, octet: Octet): (r: Decoded)
    requires DecOk(d)
    ensures DecOk(r.dec)
  {
    if d.compressed then
      Drain(d.(bits := Join(d.bits, d.count, octet), count := d.count + 8))
    else
      Transparent(d, octet)
  }

  /** What the decoder does with octets in order, up to the first error. */
  ghost function DecodeAll(d: Dec, octets: Octets): (r: Decoded)
    requires DecOk(d)
    ensures DecOk(r.dec)
    decreases |octets|
  {
    if octets == [] then Decoded(d, [], Fine)
    else
      var r := Step(d, octets[0]);
      if r.status.Fine? then Continue(r, DecodeAll(r.dec, octets[1..])) else r
  }

  lemma {:induction false} DecodesInParts(d: Dec, a: Octets, b: Octets)
    requires DecOk(d)
    requires DecodeAll(d, a).status.Fine?
    decreases |a|
    ensures DecodeAll(d, a + b) == Continue(DecodeAll(d, a), DecodeAll(DecodeAll(d, a).dec, b))
  {
    hide Step;
    if a == [] {
      assert a + b == b;
    } else {
      var r := Step(d, a[0]);
      DecodesInParts(r.dec, a[1..], b);
      assert (a + b)[1..] == a[1..] + b;
    }
  }
}
