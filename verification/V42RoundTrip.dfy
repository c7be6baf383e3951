/** Whatever an encoder sends, a fresh decoder of the same parameters gives back. */
module V42RoundTrip {
  import opened Prelude
  import opened Arithmetic
  import opened V42Dictionary
  import opened V42bis
  import opened V42Line

  /** Characters taken but not yet in any codeword. */
  ghost function Held(e: Enc): Octets
    requires MatcherOk(e.matcher, e.dict)
  {
    if e.compressed && !e.matcher.exception && e.matcher.current.Some? then String(e.dict, e.matcher.current.value)
    else []
  }

  /** The two dictionaries differ by the update that the decoder makes at the next codeword, or not at all. */
  ghost predicate Behind(e: Enc, k: Dec)
    requires MatcherOk(e.matcher, e.dict) && DecOk(k)
  {
    && e.matcher.current.Some? && k.previous.Some? && Known(k.dict, k.previous.value)
    && var s := e.matcher.current.value;
    if e.matcher.exception then
      k.dict == e.dict && k.previous == Some(s) && k.escape == e.escape
    else
      && e.matcher.lastCreated != Some(s)
      && (e.dict, e.matcher.lastCreated) == Add(k.dict, k.previous.value, String(e.dict, s)[0])
      && e.escape == Cycled(k.escape, String(e.dict, s))
  }

  /** In transparent mode the two dictionaries and matchers are in step. */
  ghost predicate Level(e: Enc, k: Dec) {
    && k.dict == e.dict && k.escape == e.escape
    && k.matcher.current == e.matcher.current && k.matcher.exception == e.matcher.exception
    && (if e.matcher.exception then e.matcher.current.Some? else k.matcher == e.matcher)
  }

  ghost predicate Follows(e: Enc, k: Dec) {
    && MatcherOk(e.matcher, e.dict) && DecOk(k) && k.bits == k.count == 0 && !k.escaped
    && k.width == e.width && k.dict.parameters == e.dict.parameters
    && k.compressed == e.compressed
    && (!e.compressed || e.matcher.exception ==> e.writer.count == 0)
    && if e.compressed then Behind(e, k) else Level(e, k)
  }

  lemma InStepOk(d0: Dec, e: Enc, k: Dec, total: Octets, text: Octets)
    requires InStep(d0, e, k, total, text)
    ensures MatcherOk(e.matcher, e.dict)
  {
  }

  ghost predicate InStep(d0: Dec, e: Enc, k: Dec, total: Octets, text: Octets) {
    && Follows(e, k) && Reaches(d0, e.writer, k, total)
    && text == total + Held(e)
  }

  lemma {:induction false} CycledAppends(escape: Octet, a: Octets, b: Octets)
    ensures Cycled(escape, a + b) == Cycled(Cycled(escape, a), b)
    decreases |a|
  {
    if a == [] {
      assert a + b == b;
    } else {
      CycledAppends(NextEscape(escape, a[0]), a[1..], b);
      assert (a + b)[1..] == a[1..] + b;
    }
  }

  /** A codeword of a string does the same at any width. */
  lemma AnyWidth(k: Dec, code: nat, width: nat)
    requires DecOk(k) && width >= k.width && code > STEPUP
    ensures DecOk(k.(width := width))
    ensures var r := Decode(k, code);
      Decode(k.(width := width), code) == r.(dec := r.dec.(width := width))
  {
    hide Inv, Add, String;
  }

  lemma StepsUp(k: Dec, code: nat)
    requires DecOk(k) && Pow2(k.width) <= code < k.dict.parameters.codewords
    ensures Decode(k, STEPUP) == Decoded(k.(width := k.width + 1), [], Fine)
  {
    var n := k.dict.parameters.codewords - 1;
    BitLengthBounds(n);
    if BitLength(n) <= k.width {
      Pow2Grows(BitLength(n), k.width);
    }
    hide Add, String, Tree;
  }

  /** Sending a string's codeword, with the STEPUPs it needs, takes the decoder through it. */
  lemma {:induction false} CodewordReaches(d0: Dec, e: Enc, k: Dec, total: Octets, code: nat)
    requires Reaches(d0, e.writer, k, total) && k.compressed && DecOk(k) && k.width == e.width
    requires STEPUP < code < k.dict.parameters.codewords && Decode(k, code).status.Fine?
    ensures var e', r := Codeword(e, code).0, Decode(k, code);
      Reaches(d0, e'.writer, r.dec.(width := e'.width), total + r.out)
    decreases code - Pow2(e.width)
  {
    hide Reaches, Decode, Inv, PutBits, DecOk;
    if code >= Pow2(e.width) {
      StepsUp(k, code);
      var k1 := k.(width := k.width + 1);
      WidthOk(k);
      FitsMore(STEPUP, 2, k.width) by {
        assert Pow2(2) == 4;
      }
      PutReaches(d0, e.writer, k, total, STEPUP);
      assert total + [] == total;
      AnyWidth(k, code, k.width + 1);
      CodewordReaches(d0, Put(e, STEPUP).(width := e.width + 1), k1, total, code);
    } else {
      PutReaches(d0, e.writer, k, total, code);
      KeepsWidth(k, code);
    }
  }

  lemma KeepsWidth(k: Dec, code: nat)
    requires DecOk(k) && code > STEPUP
    ensures Decode(k, code).dec.width == k.width
  {
    hide Inv, Add, String;
  }

  /** The codeword of the string being matched brings the decoder's dictionary level with the encoder's. */
  lemma CatchesUp(e: Enc, k: Dec)
    requires Follows(e, k) && e.compressed && !e.matcher.exception
    ensures e.matcher.current.Some?
    ensures var s := e.matcher.current.value;
      && STEPUP < s < k.dict.parameters.codewords
      && Decode(k, s) == Decoded(k.(dict := e.dict, previous := Some(s), escape := e.escape), String(e.dict, s), Fine)
  {
    var s, p := e.matcher.current.value, k.previous.value;
    AddKeepsStrings(k.dict, p, String(e.dict, s)[0], s);
    if !IsRoot(s) {
      assert EntryOk(k.dict, s);
    }
  }

  lemma NewString(d: Dict, c: Octet)
    requires Inv(d)
    ensures Known(d, Root(c)) && String(d, Root(c)) == [c]
  {
  }

  lemma ExtendsString(d: Dict, s: nat, child: nat, c: Octet)
    requires Inv(d) && Known(d, s) && HasKey(d, child, s, c)
    ensures Known(d, child) && String(d, child) == String(d, s) + [c] && String(d, child)[0] == String(d, s)[0]
  {
    assert EntryOk(d, child);
  }

  // One character in compressed mode.

  /** With no string in hand, a character becomes one and the dictionaries stay level. */
  lemma SendsAfterException(e: Enc, k: Dec, c: Octet)
    requires Follows(e, k) && e.compressed && e.matcher.exception
    ensures var e' := Send(e, c);
      Follows(e', k) && e'.writer == e.writer && Held(e) == [] && Held(e') == [c]
  {
    var s := e.matcher.current.value;
    AddKeepsInv(e.dict, s, c);
    NewString(Add(e.dict, s, c).0, c);
    assert Cycled(k.escape, [c]) == NextEscape(k.escape, c);
  }

  /** A character that the string goes on with is held back. */
  lemma SendsWithin(e: Enc, k: Dec, c: Octet)
    requires Follows(e, k) && e.compressed && !e.matcher.exception
    requires Push(e.matcher, e.dict, c).ended.None?
    ensures var e' := Send(e, c);
      Follows(e', k) && e'.writer == e.writer && Held(e') == Held(e) + [c]
  {
    var s := e.matcher.current.value;
    var child := Child(e.dict, s, c);
    ExtendsString(e.dict, s, child.value, c);
    CycledAppends(k.escape, String(e.dict, s), [c]);
    var escape := Cycled(k.escape, String(e.dict, s));
    assert Cycled(escape, [c]) == NextEscape(escape, c);
  }

  /** The matcher, dictionary and escape a character leaves when it ends a string. */
  lemma Restarts(e: Enc, c: Octet)
    requires MatcherOk(e.matcher, e.dict) && Push(e.matcher, e.dict, c).ended.Some?
    ensures var p := Push(e.matcher, e.dict, c); var s := p.ended.value;
      && e.matcher.current == Some(s) && !e.matcher.exception
      && p == Pushed(Matcher(Some(Root(c)), Add(e.dict, s, c).1, false), Add(e.dict, s, c).0, Some(s))
      && MatcherOk(p.matcher, p.dict) && p.dict.parameters == e.dict.parameters
      && String(p.dict, Root(c)) == [c] && p.matcher.lastCreated != Some(Root(c))
  {
    var s := e.matcher.current.value;
    AddKeepsInv(e.dict, s, c);
    NewString(Add(e.dict, s, c).0, c);
  }

  /** A character that ends the string sends its codeword. */
  lemma SendsString(d0: Dec, e: Enc, k: Dec, total: Octets, c: Octet)
    returns (k': Dec)
    requires Follows(e, k) && Reaches(d0, e.writer, k, total) && e.compressed
    requires Push(e.matcher, e.dict, c).ended.Some?
    ensures var e' := Send(e, c);
      Follows(e', k') && Reaches(d0, e'.writer, k', total + Held(e)) && Held(e') == [c]
  {
    hide Reaches, Push, Inv, Tree, Decode, Add, Codeword;
    Restarts(e, c);
    CatchesUp(e, k);
    var p := Push(e.matcher, e.dict, c);
    var s := p.ended.value;
    var e1 := e.(matcher := p.matcher, dict := p.dict);
    CodewordWrites(e1, s);
    CodewordReaches(d0, e1, k, total, s);
    AnyWidth(k, s, Codeword(e1, s).0.width);
    k' := Decode(k, s).dec.(width := Codeword(e1, s).0.width);
    assert Cycled(e.escape, [c]) == NextEscape(e.escape, c);
  }

  // Transparent mode.

  /** Level matchers take a character the same way. */
  lemma PushesAlike(m: Matcher, n: Matcher, d: Dict, c: Octet)
    requires MatcherOk(m, d) && n.current == m.current && n.exception == m.exception
    requires if m.exception then m.current.Some? else m == n
    ensures MatcherOk(n, d) && Push(m, d, c) == Push(n, d, c)
  {
  }

  /** Hearing a character, and the EID after it if it is the escape character. */
  lemma HearsPlain(k: Dec, c: Octet)
    requires DecOk(k) && !k.compressed && !k.escaped && k.bits == k.count == 0 && MatcherOk(k.matcher, k.dict)
    ensures var p := Push(k.matcher, k.dict, c);
      DecodeAll(k, if c == k.escape then [c, EID] else [c])
        == Decoded(k.(matcher := p.matcher, dict := p.dict, escape := NextEscape(k.escape, c)), [c], Fine)
  {
    hide Push, Inv;
    if c == k.escape {
      var k1 := k.(escaped := true);
      assert Step(k, c) == Decoded(k1, [], Fine);
      assert [c, EID][1..] == [EID];
      assert DecodeAll(k1, [EID]) == Continue(Step(k1, EID), DecodeAll(Step(k1, EID).dec, []));
    }
  }

  lemma SendsPlain(d0: Dec, e: Enc, k: Dec, total: Octets, c: Octet)
    returns (k': Dec)
    requires Follows(e, k) && Reaches(d0, e.writer, k, total) && !e.compressed
    ensures var e' := Send(e, c);
      Follows(e', k') && Reaches(d0, e'.writer, k', total + [c]) && Held(e) == Held(e') == []
  {
    hide Reaches, Push, Inv, Decode, Add;
    PushesAlike(e.matcher, k.matcher, e.dict, c);
    PushKeepsOk(e.matcher, e.dict, c);
    HearsPlain(k, c);
    var octets := if c == k.escape then [c, EID] else [c];
    EmitReaches(d0, e.writer, k, total, octets);
    k' := DecodeAll(k, octets).dec;
  }

  // Mode changes and flushes.

  lemma EntersCompressed(d0: Dec, e: Enc, k: Dec, total: Octets)
    requires Follows(e, k) && Reaches(d0, e.writer, k, total) && !e.compressed && e.matcher.current.Some?
    ensures var e', k' := Emit(e, [e.escape, ECM]).(compressed := true, matcher := e.matcher.(exception := true)),
        k.(compressed := true, previous := k.matcher.current);
      Follows(e', k') && Reaches(d0, e'.writer, k', total) && Held(e') == []
  {
    hide Reaches, Inv, Add, DecodeAll;
    HearsSwitch(k);
    EmitReaches(d0, e.writer, k, total, [k.escape, ECM]);
    assert total + [] == total;
  }

  lemma HearsSwitch(k: Dec)
    requires DecOk(k) && !k.compressed && !k.escaped && k.bits == k.count == 0
    ensures DecodeAll(k, [k.escape, ECM])
      == Decoded(k.(compressed := true, previous := k.matcher.current), [], Fine)
  {
    hide Inv;
    var k1 := k.(escaped := true);
    assert Step(k, k.escape) == Decoded(k1, [], Fine);
    assert [k.escape, ECM][1..] == [ECM];
    assert DecodeAll(k1, [ECM]) == Continue(Step(k1, ECM), DecodeAll(Step(k1, ECM).dec, []));
  }

  /** Sends the string being matched, which leaves the next character to start another. */
  lemma SendsHeld(d0: Dec, e: Enc, k: Dec, total: Octets)
    returns (k': Dec)
    requires Follows(e, k) && Reaches(d0, e.writer, k, total) && e.compressed && !e.matcher.exception
    ensures e.matcher.current.Some?
    ensures var sent := Codeword(e, e.matcher.current.value).0;
      var e' := sent.(matcher := sent.matcher.(exception := true));
      && Follows(e'.(writer := e'.writer.(count := 0)), k') && Reaches(d0, e'.writer, k', total + Held(e))
      && e' == e.(width := e'.width, writer := e'.writer, matcher := e.matcher.(exception := true))
  {
    hide Reaches, Inv, Tree, Decode, Add, Codeword;
    CatchesUp(e, k);
    var s := e.matcher.current.value;
    CodewordWrites(e, s);
    CodewordReaches(d0, e, k, total, s);
    AnyWidth(k, s, Codeword(e, s).0.width);
    k' := Decode(k, s).dec.(width := Codeword(e, s).0.width);
  }

  lemma LeavesCompressed(d0: Dec, e: Enc, k: Dec, total: Octets)
    returns (k': Dec)
    requires Follows(e.(writer := e.writer.(count := 0)), k) && Reaches(d0, e.writer, k, total)
    requires e.compressed && e.matcher.exception
    ensures var ended := Put(e, ETM);
      var e' := ended.(writer := Align(ended.writer), compressed := false);
      Follows(e', k') && Reaches(d0, e'.writer, k', total) && Held(e') == []
  {
    hide Reaches, Inv, Add, PutBits, Align;
    WidthOk(k);
    EndsWell(k);
    AlignReaches(d0, e.writer, k, total, ETM) by {
      FitsMore(ETM, 0, k.width);
    }
    k' := Decode(k, ETM).dec;
  }

  lemma EndsWell(k: Dec)
    requires DecOk(k) && k.bits == k.count == 0
    ensures Decode(k, ETM).dec == Ended(k) && Decode(k, FLUSH).dec == k
    ensures Fits(ETM, k.width) && Fits(FLUSH, k.width)
  {
    hide Inv, Ended, Low;
    AlignsAway(k, 0, 0, ETM);
    AlignsAway(k, 0, 0, FLUSH);
    FitsMore(1, 1, k.width);
    FitsMore(0, 1, k.width);
  }

  lemma {:induction false} TestKeepsStep(d0: Dec, e: Enc, k: Dec, total: Octets)
    returns (k': Dec, total': Octets)
    requires Follows(e, k) && Reaches(d0, e.writer, k, total)
    requires e.matcher.current.Some? && !e.matcher.exception
    ensures MatcherOk(Test(e).matcher, Test(e).dict)
    ensures InStep(d0, Test(e), k', total', total + Held(e))
  {
    hide Reaches, Inv, Add, PutBits, Align, Codeword, String, Tree;
    var raw, bits := e.windowCharacters * 8, e.windowBits;
    var cleared := e.(windowCharacters := 0, windowBits := 0);
    if !e.compressed && bits * 4 < raw * 3 {
      EntersCompressed(d0, cleared, k, total);
      k' := k.(compressed := true, previous := k.matcher.current);
      total' := total;
    } else if e.compressed && bits > raw {
      var k1 := SendsHeld(d0, cleared, k, total);
      var sent := Codeword(cleared, e.matcher.current.value).0;
      k' := LeavesCompressed(d0, sent.(matcher := sent.matcher.(exception := true)), k1, total + Held(e));
      total' := total + Held(e);
    } else {
      k', total' := k, total;
    }
  }

  lemma CharacterKeepsStep(d0: Dec, e: Enc, k: Dec, total: Octets, text: Octets, c: Octet)
    returns (k': Dec, total': Octets)
    requires InStep(d0, e, k, total, text)
    ensures InStep(d0, Character(e, c), k', total', text + [c])
  {
    hide Reaches, Inv, Test, Send;
    var sent := Send(e, c);
    SendKeepsOk(e, c);
    if !e.compressed {
      k' := SendsPlain(d0, e, k, total, c);
      total' := total + [c];
    } else if e.matcher.exception {
      SendsAfterException(e, k, c);
      k', total' := k, total;
    } else if Push(e.matcher, e.dict, c).ended.None? {
      SendsWithin(e, k, c);
      k', total' := k, total;
    } else {
      k' := SendsString(d0, e, k, total, c);
      total' := total + Held(e);
    }
    assert text + [c] == total' + Held(sent);
    if sent.windowCharacters == TEST_WINDOW {
      k', total' := TestKeepsStep(d0, sent, k', total');
    }
  }

  lemma FlushKeepsStep(d0: Dec, e: Enc, k: Dec, total: Octets, text: Octets)
    returns (k': Dec)
    requires InStep(d0, e, k, total, text)
    ensures Follows(Flush(e), k') && Flush(e).writer.count == 0
    ensures Reaches(d0, Flush(e).writer, k', text)
    ensures Held(Flush(e)) == []
  {
    hide Reaches, Inv, Add, PutBits, Align, Codeword, Tree;
    if e.compressed && !e.matcher.exception {
      k' := SendsHeld(d0, e, k, total);
      var sent := Codeword(e, e.matcher.current.value).0;
      var excepted := sent.(matcher := sent.matcher.(exception := true));
      if sent.writer.count != 0 {
        EndsWell(k');
        AlignReaches(d0, excepted.writer, k', text, FLUSH);
      }
    } else {
      k' := k;
      assert total + [] == total;
    }
  }

  lemma {:induction false} EncodeKeepsStep(d0: Dec, e: Enc, k: Dec, total: Octets, before: Octets, text: Octets)
    returns (k': Dec, total': Octets)
    requires InStep(d0, e, k, total, before)
    ensures InStep(d0, Encode(e, text), k', total', before + text)
    decreases |text|
  {
    hide Follows, Reaches, Character, Inv;
    InStepOk(d0, e, k, total, before);
    if text == [] {
      k', total' := k, total;
      assert before + text == before;
    } else {
      k', total' := CharacterKeepsStep(d0, e, k, total, before, text[0]);
      k', total' := EncodeKeepsStep(d0, Character(e, text[0]), k', total', before + [text[0]], text[1..]);
      assert before + [text[0]] + text[1..] == before + text;
    }
  }

  lemma PerformKeepsStep(d0: Dec, e: Enc, k: Dec, total: Octets, before: Octets, op: Op)
    returns (k': Dec, total': Octets)
    requires InStep(d0, e, k, total, before)
    ensures InStep(d0, Perform(e, op), k', total', before + TextOf([op]))
    ensures op.Idle? ==> total' == before && Perform(e, op).writer.count == 0
  {
    hide Reaches, Flush, Inv;
    match op
    case Data(text) =>
      k', total' := EncodeKeepsStep(d0, e, k, total, before, text);
      assert TextOf([op]) == text;
    case Idle =>
      k' := FlushKeepsStep(d0, e, k, total, before);
      total' := before;
      assert before + TextOf([op]) == before + [] == before;
  }

  lemma {:induction false} RunKeepsStep(d0: Dec, e: Enc, k: Dec, total: Octets, before: Octets, ops: seq<Op>)
    returns (k': Dec, total': Octets)
    requires InStep(d0, e, k, total, before)
    ensures InStep(d0, Run(e, ops), k', total', before + TextOf(ops))
    ensures ops != [] && ops[|ops| - 1].Idle? ==> total' == before + TextOf(ops) && Run(e, ops).writer.count == 0
    decreases |ops|
  {
    hide Follows, Reaches, Perform, Inv;
    InStepOk(d0, e, k, total, before);
    if ops == [] {
      k', total' := k, total;
      assert before + TextOf(ops) == before;
    } else {
      k', total' := PerformKeepsStep(d0, e, k, total, before, ops[0]);
      var text := TextOf([ops[0]]);
      assert TextOf(ops) == text + TextOf(ops[1..]);
      assert before + text + TextOf(ops[1..]) == before + TextOf(ops);
      if |ops| == 1 {
        assert TextOf(ops[1..]) == [] && Run(e, ops) == Perform(e, ops[0]) && [ops[0]] == ops;
      } else {
        k', total' := RunKeepsStep(d0, Perform(e, ops[0]), k', total', before + text, ops[1..]);
      }
    }
  }

  lemma ReachesItself(d: Dec, w: Writer)
    requires DecOk(d) && d.bits == d.count == 0 && w.bits == w.count == 0 && w.out == []
    ensures Reaches(d, w, d, [])
  {
    hide Inv, Chain, Step, Fits, Join;
    JoinZero(d.bits, d.count);
    var total: Octets := [];
    assert DecodeAll(d, w.out) == Decoded(d, [], Fine);
    assert total[0..] == [];
    assert Flies(d, w.bits, w.count, None, d, []);
  }

  lemma StartsInStep(parameters: Parameters)
    requires parameters.Valid()
    ensures InStep(NewDec(parameters), NewEnc(parameters), NewDec(parameters), [], [])
  {
    hide Inv, Reaches, NewDict;
    var e, d := NewEnc(parameters), NewDec(parameters);
    assert d.dict.parameters == parameters by {
      NewDictParameters(parameters);
    }
    ReachesItself(d, e.writer);
    assert Level(e, d);
  }

  lemma NewDictParameters(parameters: Parameters)
    ensures NewDict(parameters).parameters == parameters
  {
  }

  /** An error in what was sent so far would stay one, and what was decoded so far stays decoded. */
  lemma {:induction false} PrefixDecodes(d: Dec, a: Octets, b: Octets)
    requires DecOk(d) && DecodeAll(d, a + b).status.Fine?
    ensures DecodeAll(d, a).status.Fine? && DecodeAll(d, a).out <= DecodeAll(d, a + b).out
    decreases |a|
  {
    hide Step, Inv;
    if a == [] {
    } else {
      assert (a + b)[0] == a[0] && (a + b)[1..] == a[1..] + b;
      PrefixDecodes(Step(d, a[0]).dec, a[1..], b);
    }
  }

  /**
   * V.42 bis is lossless: for any parameters that section 5.1 allows, any interleaving of chunks and
   * flushes and any point in what the encoder sent, a fresh decoder has met no error, and has put out a
   * prefix of the text; after a flush, all of it.
   */
  lemma RoundTrip(parameters: Parameters, ops: seq<Op>, n: nat)
    requires parameters.Valid()
    requires n <= |Run(NewEnc(parameters), ops).writer.out|
    ensures var r := DecodeAll(NewDec(parameters), Run(NewEnc(parameters), ops).writer.out[..n]);
      r.status.Fine? && r.out <= TextOf(ops)
    ensures ops != [] && ops[|ops| - 1].Idle? ==>
      var r := DecodeAll(NewDec(parameters), Run(NewEnc(parameters), ops).writer.out);
      r.status.Fine? && r.out == TextOf(ops)
  {
    hide Follows, Step, Run, Inv;
    StartsInStep(parameters);
    var e, d := NewEnc(parameters), NewDec(parameters);
    var k, total := RunKeepsStep(d, e, d, [], [], ops);
    assert [] + TextOf(ops) == TextOf(ops);
    var wire := Run(e, ops).writer.out;
    assert wire == wire[..n] + wire[n..];
    PrefixDecodes(d, wire[..n], wire[n..]);
    if ops != [] && ops[|ops| - 1].Idle? {
      var r := DecodeAll(d, wire);
      Landed(r.dec, Run(e, ops).writer.bits, None, k, total[|r.out|..]);
    }
  }
}
