/** When V.42 bis compresses: what a window of 512 characters took, or would have taken, decides the mode after it. */
module V42Window {
  import opened Prelude
  import Arithmetic
  import opened V42Dictionary
  import opened V42bis
  import opened V42Greedy

  /** The bits that a writer took. */
  function Taken(w: Writer): nat {
    8 * |w.out| + w.count
  }

  lemma {:induction false} SpillTakes(w: Writer)
    ensures Taken(Spill(w)) == Taken(w)
    decreases w.count
  {
    if w.count >= 8 {
      hide Arithmetic.High, Arithmetic.Low;
      Arithmetic.OctetFits(w.bits);
      SpillTakes(Writer(Arithmetic.High(w.bits, 8), w.count - 8, w.out + [Arithmetic.Low(w.bits, 8)]));
    }
  }

  lemma PutTakes(w: Writer, value: nat, width: nat)
    ensures Taken(PutBits(w, value, width)) == Taken(w) + width
  {
    hide Spill, Arithmetic.Join;
    SpillTakes(Writer(Arithmetic.Join(w.bits, w.count, value), w.count + width, w.out));
  }

  /** What is counted for a codeword is what the writer took for it and for its STEPUPs. */
  lemma {:induction false} CodewordTakes(e: Enc, code: nat)
    ensures var (e', bits) := Codeword(e, code); Taken(e'.writer) == Taken(e.writer) + bits
    decreases code - Pow2(e.width)
  {
    hide PutBits, Taken;
    if code >= Pow2(e.width) {
      PutTakes(e.writer, STEPUP, e.width);
      CodewordTakes(Put(e, STEPUP).(width := e.width + 1), code);
    } else {
      PutTakes(e.writer, code, e.width);
    }
  }

  /** The bits that the writer takes for codewords, from an encoder on. */
  function BitsFor(e: Enc, codes: seq<nat>): int {
    Taken(PutAll(e, codes).writer) - Taken(e.writer)
  }

  /** The bits of the same codewords at a width that grows with none of them: each as wide as it must be at least. */
  function BitsAt(width: nat, codes: seq<nat>): nat {
    if codes == [] then 0
    else (if BitLength(codes[0]) > width then BitLength(codes[0]) else width) + BitsAt(width, codes[1..])
  }

  lemma BitsForMore(e: Enc, f: Enc, s: nat, codes: seq<nat>)
    requires var e' := Codeword(e, s).0; f.writer == e'.writer && f.width == e'.width
    ensures BitsFor(e, [s] + codes) == Codeword(e, s).1 + BitsFor(f, codes)
  {
    hide Codeword, Taken;
    assert ([s] + codes)[0] == s && ([s] + codes)[1..] == codes;
    CodewordTakes(e, s);
    PutAllAlike(Codeword(e, s).0, f, codes);
  }

  lemma BitsForSame(e: Enc, f: Enc, codes: seq<nat>)
    requires f.writer == e.writer && f.width == e.width
    ensures BitsFor(f, codes) == BitsFor(e, codes)
  {
    hide Taken;
    PutAllAlike(e, f, codes);
  }

  lemma BitsAtMore(width: nat, s: nat, codes: seq<nat>)
    ensures BitsAt(width, [s] + codes) == (if BitLength(s) > width then BitLength(s) else width) + BitsAt(width, codes)
  {
    assert ([s] + codes)[0] == s && ([s] + codes)[1..] == codes;
  }

  /** Before the window is tested, in either mode: the mode, the count of characters, and what is pushed. */
  lemma SendCounts(e: Enc, c: Octet)
    requires MatcherOk(e.matcher, e.dict)
    ensures var p, e' := Push(e.matcher, e.dict, c), Send(e, c);
      && e'.matcher == p.matcher && e'.dict == p.dict && e'.compressed == e.compressed
      && e'.windowCharacters == e.windowCharacters + 1
      && (if p.ended.None? then e'.width == e.width && e'.windowBits == e.windowBits
          else if e.compressed then
            && e'.writer == Codeword(e, p.ended.value).0.writer && e'.width == Codeword(e, p.ended.value).0.width
            && e'.windowBits == e.windowBits + Codeword(e, p.ended.value).1
          else e'.width == e.width && e'.windowBits == e.windowBits + WidthFor(e, p.ended.value))
      && (e.compressed && p.ended.None? ==> e'.writer == e.writer)
  {
    hide Push, Inv, Known, Codeword, WidthFor;
    var p := Push(e.matcher, e.dict, c);
    if p.ended.Some? {
      var e1 := e.(matcher := p.matcher, dict := p.dict);
      CodewordAlike(e, e1, p.ended.value);
      CodewordWrites(e1, p.ended.value);
      WidthAlike(e, e1, p.ended.value);
    }
  }

  lemma WidthAlike(e: Enc, f: Enc, code: nat)
    requires f.width == e.width
    ensures WidthFor(f, code) == WidthFor(e, code)
    ensures WidthFor(e, code) == if BitLength(code) > e.width then BitLength(code) else e.width
  {
  }

  /** What the window has counted once this text is taken as well. */
  ghost function Counted(e: Enc, text: Octets): int
    requires MatcherOk(e.matcher, e.dict)
  {
    var codes := Phrases(e.matcher, e.dict, text);
    e.windowBits + if e.compressed then BitsFor(e, codes) else BitsAt(e.width, codes)
  }

  lemma CountsOne(e: Enc, c: Octet, rest: Octets)
    requires MatcherOk(e.matcher, e.dict) && MatcherOk(Send(e, c).matcher, Send(e, c).dict)
    ensures Counted(e, [c] + rest) == Counted(Send(e, c), rest)
  {
    hide Push, Inv, Known, Codeword, BitsFor, BitsAt, WidthFor, Send;
    var e', p := Send(e, c), Push(e.matcher, e.dict, c);
    SendCounts(e, c);
    PushKeepsOk(e.matcher, e.dict, c);
    assert ([c] + rest)[0] == c && ([c] + rest)[1..] == rest;
    var codes := Phrases(p.matcher, p.dict, rest);
    if p.ended.None? {
      assert [] + codes == codes;
      if e.compressed {
        BitsForSame(e, e', codes);
      }
    } else if e.compressed {
      BitsForMore(e, e', p.ended.value, codes);
    } else {
      BitsAtMore(e.width, p.ended.value, codes);
      WidthAlike(e, e', p.ended.value);
    }
  }

  lemma CountsNone(e: Enc)
    requires MatcherOk(e.matcher, e.dict)
    ensures Counted(e, []) == e.windowBits && BitsAt(e.width, []) == 0
  {
  }

  /**
   * Within a window, the bits counted are those the writer took for codewords since, in compressed mode, and in
   * transparent mode those that the ended strings would have taken.
   */
  lemma {:induction false} WindowCounts(e: Enc, text: Octets)
    requires MatcherOk(e.matcher, e.dict) && e.windowCharacters + |text| < 512
    ensures var e', codes := Encode(e, text), Phrases(e.matcher, e.dict, text);
      && e'.compressed == e.compressed && e'.windowCharacters == e.windowCharacters + |text|
      && (e.compressed ==>
        e'.writer == PutAll(e, codes).writer && e'.windowBits == e.windowBits + Taken(e'.writer) - Taken(e.writer))
      && (!e.compressed ==> e'.width == e.width && e'.windowBits == e.windowBits + BitsAt(e.width, codes))
    decreases |text|
  {
    hide Push, Inv, Known, Send, Taken, BitsAt, Codeword, WidthFor;
    if text != [] {
      var c, e1 := text[0], Send(e, text[0]);
      SendKeepsOk(e, c);
      SendCounts(e, c);
      WindowCounts(e1, text[1..]);
      assert text == [c] + text[1..];
      CountsOne(e, c, text[1..]);
      if e.compressed {
        WritesOne(e, c, text[1..]);
      }
    } else {
      CountsNone(e);
    }
  }

  lemma WritesOne(e: Enc, c: Octet, rest: Octets)
    requires MatcherOk(e.matcher, e.dict) && MatcherOk(Send(e, c).matcher, Send(e, c).dict) && e.compressed
    ensures var e' := Send(e, c);
      PutAll(e, Phrases(e.matcher, e.dict, [c] + rest)).writer == PutAll(e', Phrases(e'.matcher, e'.dict, rest)).writer
  {
    hide Push, Inv, Known, Codeword, Send;
    var e', p := Send(e, c), Push(e.matcher, e.dict, c);
    SendCounts(e, c);
    PushKeepsOk(e.matcher, e.dict, c);
    assert ([c] + rest)[0] == c && ([c] + rest)[1..] == rest;
    var codes := Phrases(p.matcher, p.dict, rest);
    if p.ended.None? {
      assert [] + codes == codes;
      PutAllAlike(e, e', codes);
    } else {
      assert ([p.ended.value] + codes)[1..] == codes;
      PutAllAlike(Codeword(e, p.ended.value).0, e', codes);
    }
  }

  /** The test of a whole window, by the bits it counted. */
  lemma TestDecides(e: Enc)
    requires e.windowCharacters == 512
    ensures var e' := Test(e);
      && e'.windowCharacters == 0 && e'.windowBits == 0
      && (e'.compressed <==> if e.compressed then e.windowBits <= 4096 else e.windowBits < 3072)
      && (e'.compressed == e.compressed ==> e'.writer == e.writer && e'.width == e.width && e'.matcher == e.matcher)
  {
    hide Codeword, PutBits, Align;
    if e.matcher.current.Some? {
      CodewordWrites(e.(windowCharacters := 0, windowBits := 0), e.matcher.current.value);
    }
  }

  /** The rest of a window, from any point within it. */
  lemma {:induction false} RestDecides(e: Enc, text: Octets)
    requires MatcherOk(e.matcher, e.dict) && text != [] && e.windowCharacters + |text| == 512
    ensures var e' := Encode(e, text);
      && e'.windowCharacters == 0 && e'.windowBits == 0
      && (e'.compressed <==> if e.compressed then Counted(e, text) <= 4096 else Counted(e, text) < 3072)
      && (e.compressed && e'.compressed ==> e'.writer == PutAll(e, Phrases(e.matcher, e.dict, text)).writer)
      && (!e.compressed && !e'.compressed ==> e'.width == e.width)
    decreases |text|
  {
    hide Push, Inv, Known, Send, Counted, Test, Codeword;
    var c, e1 := text[0], Send(e, text[0]);
    SendKeepsOk(e, c);
    SendCounts(e, c);
    assert text == [c] + text[1..];
    CountsOne(e, c, text[1..]);
    if e.compressed {
      WritesOne(e, c, text[1..]);
    }
    if |text| == 1 {
      assert text[1..] == [];
      CountsNone(e1);
      TestDecides(e1);
      assert Encode(e, text) == Test(e1);
    } else {
      RestDecides(e1, text[1..]);
    }
  }

  /**
   * The 512 characters of a window decide the mode after it. In compressed mode it is left exactly if their codewords
   * took more than 4096 bits, and else no other bits went out. In transparent mode it is entered exactly if the strings
   * that ended would have taken less than 3072.
   */
  lemma WindowDecides(e: Enc, text: Octets)
    requires MatcherOk(e.matcher, e.dict) && e.windowCharacters == 0 && e.windowBits == 0 && |text| == 512
    ensures var e', codes := Encode(e, text), Phrases(e.matcher, e.dict, text);
      var sent := PutAll(e, codes).writer;
      && (e.compressed ==>
        && (e'.compressed <==> Taken(sent) - Taken(e.writer) <= 4096)
        && (e'.compressed ==> e'.writer == sent))
      && (!e.compressed ==> (e'.compressed <==> BitsAt(e.width, codes) < 3072))
      && e'.windowCharacters == 0 && e'.windowBits == 0
  {
    hide Inv, Known, Encode, Taken;
    RestDecides(e, text);
  }

  // The windows of a run.

  /** Where a window begins, nothing of it is counted. */
  predicate InWindow(e: Enc, n: nat) {
    e.windowCharacters == n % 512 && (e.windowCharacters == 0 ==> e.windowBits == 0)
  }

  lemma NextInWindow(n: nat)
    ensures (n + 1) % 512 == if n % 512 == 511 then 0 else n % 512 + 1
  {
  }

  lemma CharacterInWindow(e: Enc, c: Octet, n: nat)
    requires MatcherOk(e.matcher, e.dict) && InWindow(e, n)
    ensures InWindow(Character(e, c), n + 1)
  {
    hide Push, Inv, Known, Send, Test;
    SendCounts(e, c);
    NextInWindow(n);
    if Send(e, c).windowCharacters == 512 {
      TestDecides(Send(e, c));
    }
  }

  lemma {:induction false} EncodeInWindow(e: Enc, text: Octets, n: nat)
    requires MatcherOk(e.matcher, e.dict) && InWindow(e, n)
    ensures InWindow(Encode(e, text), n + |text|)
    decreases |text|
  {
    hide Inv, Known, Character, InWindow;
    if text != [] {
      CharacterInWindow(e, text[0], n);
      EncodeInWindow(Character(e, text[0]), text[1..], n + 1);
    }
  }

  lemma FlushInWindow(e: Enc, n: nat)
    requires InWindow(e, n)
    ensures InWindow(Flush(e), n)
  {
    hide Codeword, PutBits, Align;
    if e.matcher.current.Some? {
      CodewordWrites(e, e.matcher.current.value);
    }
  }

  lemma {:induction false} RunInWindow(e: Enc, ops: seq<Op>, n: nat)
    requires MatcherOk(e.matcher, e.dict) && InWindow(e, n)
    ensures InWindow(Run(e, ops), n + |TextOf(ops)|)
    decreases |ops|
  {
    hide Inv, Known, Encode, Flush, InWindow;
    if ops != [] {
      var text := if ops[0].Data? then ops[0].text else [];
      if ops[0].Data? {
        EncodeInWindow(e, text, n);
      } else {
        FlushInWindow(e, n);
      }
      RunInWindow(Perform(e, ops[0]), ops[1..], n + |text|);
    }
  }

  /** In every run a window begins at each 512th character of the text, whatever chunks it comes in. */
  lemma WindowsTile(parameters: Parameters, ops: seq<Op>)
    requires parameters.Valid() && |TextOf(ops)| % 512 == 0
    ensures var e := Run(NewEnc(parameters), ops); e.windowCharacters == 0 && e.windowBits == 0
  {
    hide Run, Inv, Known;
    RunInWindow(NewEnc(parameters), ops, 0);
  }
}
