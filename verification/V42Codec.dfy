/** The V.42 bis encoder and decoder as they change their fields in place. */
module V42Codec {
  import opened Prelude
  import opened Arithmetic
  import opened V42Dictionary
  import opened V42DictionaryClass
  import opened V42bis

  class StringMatcher {
    var current: Option<nat>
    var lastCreated: Option<nat>
    var exception: bool

    ghost function View(): Matcher
      reads this
    {
      Matcher(current, lastCreated, exception)
    }

    constructor ()
      ensures View() == NewMatcher
    {
      current, lastCreated, exception := None, None, false;
    }

    /** The modelled matcher and dictionary after `c`, in place, and the codeword of a string that ends there. */
    method Push(dictionary: Dictionary, c: Octet) returns (ended: Option<nat>)
      requires dictionary.Valid() && this !in dictionary.Parts()
      requires MatcherOk(View(), dictionary.model)
      modifies this, dictionary.Parts()
      ensures dictionary.Valid()
      ensures Pushed(View(), dictionary.model, ended) == V42bis.Push(old(View()), old(dictionary.model), c)
    {
      hide Inv, Add, Mirrors;
      ended := None;
      if current.Some? {
        var s := current.value;
        KnownIsWord(dictionary.model, s);
        var child := dictionary.ChildOf(s, c);
        if !exception && child.Some? && child != lastCreated {
          current := child;
          return None;
        }
        lastCreated := dictionary.Add(s, c);
        ended := if exception then None else Some(s);
      }
      exception := false;
      current := Some(Root(c));
    }
  }

  class BitWriter {
    var bits: nat
    var count: nat
    var out: Octets
    /** What was taken from `out` before. */
    ghost var taken: Octets

    ghost function View(): Writer
      reads this
    {
      Writer(bits, count, taken + out)
    }

    /** At most seven bits wait, so the next codeword's never meet them. */
    ghost predicate Valid()
      reads this
    {
      count < 8 && Fits(bits, count)
    }

    constructor ()
      ensures Valid() && View() == Writer(0, 0, []) && taken == []
    {
      bits, count, out, taken := 0, 0, [], [];
    }

    method Put(value: Word, width: nat)
      requires Valid() && width <= 16 && Fits(value, width)
      modifies this
      ensures Valid() && taken == old(taken)
      ensures View() == PutBits(old(View()), value, width)
    {
      hide Low, High, Join, Fits;
      JoinFits(bits, count, value, width);
      bits := Join(bits, count, value);
      count := count + width;
      assert bits < 0x1_0000_0000 by {
        FitsU32(bits, count);
      }
      while count >= 8
        invariant Fits(bits, count) && taken == old(taken)
        invariant Spill(View()) == PutBits(old(View()), value, width)
        decreases count
      {
        OctetFits(bits);
        HighFits(bits, count, 8);
        assert taken + (out + [Low(bits, 8)]) == taken + out + [Low(bits, 8)];
        out := out + [Low(bits, 8)];
        bits := High(bits, 8);
        count := count - 8;
      }
    }

    method AlignBits()
      requires Valid()
      modifies this
      ensures Valid() && taken == old(taken)
      ensures View() == Align(old(View()))
    {
      if count > 0 {
        FitsMore(0, 0, 8 - count);
        Put(0, 8 - count);
      }
    }

    method Extend(octets: Octets)
      modifies this`out
      ensures out == old(out) + octets
    {
      out := out + octets;
    }

    method Take() returns (octets: Octets)
      modifies this
      ensures octets == old(out) && out == [] && View() == old(View())
      ensures bits == old(bits) && count == old(count)
    {
      octets := out;
      taken := taken + out;
      out := [];
    }
  }

  lemma FitsU32(v: nat, n: nat)
    requires Fits(v, n) && n <= 24
    ensures v < 0x1_0000_0000
  {
    FitsMore(v, n, 24);
    Pow2Adds(8, 16);
    Pow2Adds(8, 8);
    assert Pow2(8) == 256;
  }

  lemma WidthBounds(parameters: Parameters)
    requires parameters.Valid()
    ensures FIRST_WIDTH <= parameters.MaxBits() <= 16
  {
    var n := parameters.codewords - 1;
    BitLengthBounds(n);
    assert Pow2(8) == 256;
    Pow2Adds(8, 8);
    if BitLength(n) > 16 {
      Pow2Grows(16, BitLength(n) - 1);
    }
    if BitLength(n) < 9 {
      Pow2Grows(BitLength(n), 8);
    }
  }

  lemma NarrowerThanCode(parameters: Parameters, code: nat, width: nat)
    requires parameters.Valid() && Pow2(width) <= code < parameters.codewords
    ensures width < parameters.MaxBits()
  {
    BitLengthBounds(parameters.codewords - 1);
    if parameters.MaxBits() <= width {
      Pow2Grows(parameters.MaxBits(), width);
    }
  }

  lemma StepupFits(width: nat)
    requires width >= FIRST_WIDTH
    ensures Fits(STEPUP, width)
  {
    assert Pow2(2) == 4;
    FitsMore(STEPUP, 2, width);
  }

  /** The encoder of `V42bis` in fields. */
  class Encoder {
    const parameters: Parameters
    const dictionary: Dictionary
    const matcher: StringMatcher
    const writer: BitWriter
    var compressed: bool
    var escape: Octet
    var width: nat
    var windowCharacters: nat
    var windowBits: nat

    ghost function Parts(): set<object> {
      {this, matcher, writer} + dictionary.Parts()
    }

    ghost function View(): Enc
      reads this, matcher, writer, dictionary
    {
      Enc(dictionary.model, matcher.View(), compressed, escape, width, writer.View(), windowCharacters, windowBits)
    }

    ghost predicate Valid()
      reads Parts()
    {
      && dictionary.Valid() && dictionary.parameters == parameters
      && writer.Valid() && MatcherOk(matcher.View(), dictionary.model)
      && FIRST_WIDTH <= width <= parameters.MaxBits()
    }

    constructor (parameters: Parameters)
      requires parameters.Valid()
      ensures Valid() && fresh(Parts())
      ensures View() == NewEnc(parameters) && writer.out == []
    {
      this.parameters := parameters;
      dictionary := new Dictionary(parameters);
      matcher := new StringMatcher();
      writer := new BitWriter();
      compressed, escape, width, windowCharacters, windowBits := false, 0, FIRST_WIDTH, 0, 0;
      new;
      WidthBounds(parameters);
    }

    method PutCode(code: Word)
      requires writer.Valid() && width <= 16 && Fits(code, width)
      modifies writer
      ensures writer.Valid() && writer.taken == old(writer.taken)
      ensures View() == V42bis.Put(old(View()), code)
    {
      writer.Put(code, width);
    }

    /** The writer and width that `Codeword` gives, and its count of bits. */
    method SendCode(code: Word) returns (bits: nat)
      requires writer.Valid() && parameters.Valid() && FIRST_WIDTH <= width <= parameters.MaxBits()
      requires code < parameters.codewords
      modifies this`width, writer
      ensures writer.Valid() && FIRST_WIDTH <= width <= parameters.MaxBits()
      ensures (View(), bits) == Codeword(old(View()), code)
      ensures writer.taken == old(writer.taken)
    {
      hide PutBits, BitLength;
      WidthBounds(parameters);
      bits := 0;
      while code >= Pow2(width)
        invariant writer.Valid() && FIRST_WIDTH <= width <= parameters.MaxBits()
        invariant writer.taken == old(writer.taken)
        invariant var (e, b) := Codeword(View(), code); (e, bits + b) == Codeword(old(View()), code)
        decreases parameters.MaxBits() - width
      {
        StepupFits(width);
        NarrowerThanCode(parameters, code, width);
        PutCode(STEPUP);
        bits := bits + width;
        width := width + 1;
      }
      PutCode(code);
      bits := bits + width;
    }

    /** The mode that the modelled test decides on, with the commands that switch to it. */
    method TestCompressibility()
      requires Valid()
      modifies this, matcher, writer
      ensures Valid() && writer.taken == old(writer.taken)
      ensures View() == Test(old(View()))
    {
      hide Inv, Mirrors, PutBits, Align, Codeword;
      WidthBounds(parameters);
      var raw, bits := windowCharacters * 8, windowBits;
      windowCharacters, windowBits := 0, 0;
      if !compressed && bits * 4 < raw * 3 {
        writer.Extend([escape, ECM]);
        compressed := true;
        matcher.exception := true;
      } else if compressed && bits > raw {
        if matcher.current.Some? && !matcher.exception {
          KnownIsWord(dictionary.model, matcher.current.value);
          var sent := SendCode(matcher.current.value);
        }
        FitsMore(ETM, 0, width);
        PutCode(ETM);
        writer.AlignBits();
        compressed := false;
        matcher.exception := true;
      }
    }

    method WidthFor(code: Word) returns (w: nat)
      ensures w == V42bis.WidthFor(View(), code)
    {
      w := if BitLength(code) > width then BitLength(code) else width;
    }

    /** Sends one character, before the window it belongs to is tested. */
    method SendCharacter(c: Octet)
      requires Valid()
      modifies Parts()
      ensures Valid() && writer.taken == old(writer.taken)
      ensures View() == Send(old(View()), c)
    {
      hide Inv, Mirrors, V42bis.Push, V42bis.SendEnded;
      PushKeepsOk(matcher.View(), dictionary.model, c);
      PushedIsWord(matcher.View(), dictionary.model, c);
      var ended := matcher.Push(dictionary, c);
      SendEnded(ended, c);
      escape := NextEscape(escape, c);
      windowCharacters := windowCharacters + 1;
    }

    method SendEnded(ended: Option<nat>, c: Octet)
      requires Valid() && (ended.Some? ==> ended.value < parameters.codewords)
      modifies this`windowBits, this`width, writer
      ensures Valid() && writer.taken == old(writer.taken)
      ensures View() == V42bis.SendEnded(old(View()), ended, c)
    {
      hide Inv, Mirrors, Codeword;
      if compressed {
        if ended.Some? {
          var bits := SendCode(ended.value);
          windowBits := windowBits + bits;
        }
      } else {
        if ended.Some? {
          var w := WidthFor(ended.value);
          windowBits := windowBits + w;
        }
        writer.Extend(if c == escape then [c, EID] else [c]);
      }
    }

    method Character(c: Octet)
      requires Valid()
      modifies Parts()
      ensures Valid() && writer.taken == old(writer.taken)
      ensures View() == V42bis.Character(old(View()), c)
    {
      hide Inv, Mirrors, Send, Test;
      SendCharacter(c);
      if windowCharacters == TEST_WINDOW {
        TestCompressibility();
      }
    }

    /** The state after all of `data` one character at a time; what it returns has been taken from the writer. */
    method EncodeChunk(data: Octets) returns (octets: Octets)
      requires Valid()
      modifies Parts()
      ensures Valid() && writer.out == []
      ensures View() == Encode(old(View()), data)
      ensures old(writer.taken) + octets == View().writer.out
    {
      hide Inv, Mirrors, V42bis.Character;
      for i := 0 to |data|
        invariant Valid() && writer.taken == old(writer.taken)
        invariant Encode(View(), data[i..]) == Encode(old(View()), data)
      {
        assert data[i..][1..] == data[i + 1..];
        Character(data[i]);
      }
      octets := writer.Take();
    }

    /** The modelled flush; after it the far decoder has every character (`V42RoundTrip.FlushKeepsStep`). */
    method FlushHeld() returns (octets: Octets)
      requires Valid()
      modifies Parts()
      ensures Valid() && writer.out == []
      ensures View() == Flush(old(View()))
      ensures old(writer.taken) + octets == View().writer.out
    {
      hide Inv, Mirrors, PutBits, Align, Codeword;
      WidthBounds(parameters);
      if compressed && !matcher.exception && matcher.current.Some? {
        KnownIsWord(dictionary.model, matcher.current.value);
        var sent := SendCode(matcher.current.value);
        matcher.exception := true;
        if writer.count != 0 {
          FitsMore(FLUSH, 1, width);
          PutCode(FLUSH);
          writer.AlignBits();
        }
      }
      octets := writer.Take();
    }
  }

  lemma PushedIsWord(m: Matcher, d: Dict, c: Octet)
    requires MatcherOk(m, d)
    ensures var p := Push(m, d, c);
      p.ended.Some? ==> p.ended.value < d.parameters.codewords < 0x1_0000
  {
    if m.current.Some? {
      KnownIsWord(d, m.current.value);
    }
  }

  function StatusOf(error: Option<Error>): Status {
    match error
    case None => Fine
    case Some(e) => Failed(e)
  }

  lemma LowIsWord(v: nat, width: nat)
    requires width <= 16
    ensures Low(v, width) < 0x1_0000
  {
    LowFits(v, width);
    FitsMore(Low(v, width), width, 16);
    Pow2Adds(8, 8);
    assert Pow2(8) == 256;
  }

  lemma {:induction false} CycledStep(escape: Octet, text: Octets, n: nat)
    requires n < |text|
    ensures Cycled(escape, text[..n + 1]) == NextEscape(Cycled(escape, text[..n]), text[n])
    decreases n
  {
    if n == 0 {
      assert text[..1] == [text[0]];
    } else {
      var rest := text[1..];
      CycledStep(NextEscape(escape, text[0]), rest, n - 1);
      assert text[..n][1..] == rest[..n - 1] && text[..n + 1][1..] == rest[..n];
    }
  }

  /** The decoder of `V42bis` in fields. */
  class Decoder {
    const parameters: Parameters
    const dictionary: Dictionary
    const matcher: StringMatcher
    var compressed: bool
    var escape: Octet
    var escaped: bool
    var width: nat
    var bits: nat
    var count: nat
    var previous: Option<nat>

    ghost function Parts(): set<object> {
      {this, matcher} + dictionary.Parts()
    }

    ghost function View(): Dec
      reads this, matcher, dictionary
    {
      Dec(dictionary.model, matcher.View(), compressed, escape, escaped, width, bits, count, previous)
    }

    ghost predicate Valid()
      reads Parts()
    {
      && dictionary.Valid() && dictionary.parameters == parameters
      && FIRST_WIDTH <= width <= parameters.MaxBits() && Fits(bits, count)
    }

    constructor (parameters: Parameters)
      requires parameters.Valid()
      ensures Valid() && fresh(Parts())
      ensures View() == NewDec(parameters)
    {
      this.parameters := parameters;
      dictionary := new Dictionary(parameters);
      matcher := new StringMatcher();
      compressed, escape, escaped, width, bits, count, previous := false, 0, false, FIRST_WIDTH, 0, 0, None;
      new;
      WidthBounds(parameters);
    }

    method DropToOctet()
      requires Valid()
      modifies this`bits, this`count
      ensures Valid() && View() == Aligned(old(View()))
    {
      hide Inv, Mirrors, High, Fits;
      var drop := count % 8;
      HighFits(bits, count, drop);
      bits := High(bits, drop);
      count := count - drop;
    }

    /** Takes a string the far end matched: the pending update, then its characters. */
    method TakeString(code: Word, text: Octets)
      requires Valid() && Known(dictionary.model, code) && text == String(dictionary.model, code)
      requires previous.Some? ==> Known(dictionary.model, previous.value)
      modifies this, dictionary.Parts()
      ensures Valid() && View() == Learn(old(View()), code)
    {
      hide Inv, Mirrors, Add, Fits;
      StringStarts(dictionary.model, code);
      if previous.Some? {
        KnownIsWord(dictionary.model, previous.value);
        var made := dictionary.Add(previous.value, text[0]);
      }
      previous := Some(code);
      ghost var start := escape;
      assert text[..0] == [];
      for i := 0 to |text|
        modifies this`escape
        invariant escape == Cycled(start, text[..i])
      {
        CycledStep(start, text, i);
        escape := NextEscape(escape, text[i]);
      }
      assert text[..|text|] == text;
    }

    method DecodeCode(code: Word) returns (out: Octets, error: Option<Error>)
      requires Valid() && Decode(View(), code).status != Lost
      modifies Parts()
      ensures error.None? ==> Valid()
      ensures Decoded(View(), out, StatusOf(error)) == Decode(old(View()), code)
    {
      hide Inv, Mirrors, Add, String, Fits, Learn, Aligned;
      out, error := [], None;
      if code == ETM {
        DropToOctet();
        compressed := false;
        matcher.current, matcher.lastCreated, matcher.exception := previous, None, true;
      } else if code == FLUSH {
        DropToOctet();
      } else if code == STEPUP {
        width := width + 1;
        if width > parameters.MaxBits() {
          error := Some(StepupPastMaximum);
        }
      } else if code == dictionary.next {
        error := Some(CodewordIsNextEmpty);
      } else {
        var text := dictionary.StringOf(code);
        if text.None? {
          error := Some(EmptyEntry);
        } else {
          TakeString(code, text.value);
          out := text.value;
        }
      }
    }

    /** Decodes every codeword whose bits are all there. */
    method DrainCodes() returns (out: Octets, error: Option<Error>)
      requires Valid() && Drain(View()).status != Lost
      modifies Parts()
      ensures error.None? ==> Valid()
      ensures Decoded(View(), out, StatusOf(error)) == Drain(old(View()))
    {
      hide Inv, Mirrors, Decode, Low, High, Fits, Drain;
      WidthBounds(parameters);
      out, error := [], None;
      while compressed && count >= width
        invariant Valid() && error.None?
        invariant Continue(Decoded(View(), out, Fine), Drain(View())) == Drain(old(View()))
        decreases count
      {
        LowIsWord(bits, width);
        HighFits(bits, count, width);
        var code := Low(bits, width);
        ghost var before := View();
        DrainSteps(before);
        bits := High(bits, width);
        count := count - width;
        DecodeShrinks(View(), code);
        ghost var first := Decode(View(), code);
        ContinueAssociates(Decoded(before, out, Fine), first, Drain(first.dec));
        var text;
        text, error := DecodeCode(code);
        out := out + text;
        if error.Some? {
          return;
        }
      }
      DrainSteps(View());
      assert out + [] == out;
    }

    /** A character heard in transparent mode. */
    method HearCharacter(c: Octet)
      requires Valid() && MatcherOk(matcher.View(), dictionary.model)
      modifies matcher, dictionary.Parts()
      ensures Valid() && Decoded(View(), [c], Fine) == Hear(old(View()), c)
    {
      hide Inv, Mirrors, V42bis.Push, Fits;
      var ended := matcher.Push(dictionary, c);
    }

    method Restart()
      requires Valid()
      modifies Parts()
      ensures Valid() && View() == NewDec(parameters)
    {
      WidthBounds(parameters);
      dictionary.Clear();
      matcher.current, matcher.lastCreated, matcher.exception := None, None, false;
      compressed, escape, escaped, width, bits, count, previous := false, 0, false, FIRST_WIDTH, 0, 0, None;
    }

    /** The octet after an escape character. */
    method HearCommand(octet: Octet) returns (out: Octets, error: Option<Error>)
      requires Valid() && escaped && Transparent(View(), octet).status != Lost
      modifies Parts()
      ensures error.None? ==> Valid()
      ensures Decoded(View(), out, StatusOf(error)) == Transparent(old(View()), octet)
    {
      hide Inv, Mirrors, V42bis.Push, Fits, NewDec;
      out, error := [], None;
      escaped := false;
      if octet == ECM {
        NothingFits();
        compressed, previous, bits, count := true, matcher.current, 0, 0;
      } else if octet == EID {
        var character := escape;
        HearCharacter(character);
        out := [character];
        escape := NextEscape(escape, character);
      } else if octet == RESET {
        Restart();
      } else {
        error := Some(ReservedCommand);
      }
    }

    method HearOctet(octet: Octet) returns (out: Octets, error: Option<Error>)
      requires Valid() && Transparent(View(), octet).status != Lost
      modifies Parts()
      ensures error.None? ==> Valid()
      ensures Decoded(View(), out, StatusOf(error)) == Transparent(old(View()), octet)
    {
      hide Inv, Mirrors, V42bis.Push, Fits, NewDec;
      out, error := [], None;
      if escaped {
        out, error := HearCommand(octet);
      } else if octet == escape {
        escaped := true;
      } else {
        HearCharacter(octet);
        out := [octet];
      }
    }

    method TakeOctet(octet: Octet) returns (out: Octets, error: Option<Error>)
      requires Valid() && Step(View(), octet).status != Lost
      modifies Parts()
      ensures error.None? ==> Valid()
      ensures Decoded(View(), out, StatusOf(error)) == Step(old(View()), octet)
    {
      hide Inv, Mirrors, Transparent, Drain, Join, Fits;
      if compressed {
        OctetFits(octet);
        JoinFits(bits, count, octet, 8);
        bits := Join(bits, count, octet);
        count := count + 8;
        out, error := DrainCodes();
      } else {
        out, error := HearOctet(octet);
      }
    }

    /** What `DecodeAll` makes of the octets, and its first error. */
    method DecodeOctets(octets: Octets) returns (out: Octets, error: Option<Error>)
      requires Valid() && DecodeAll(View(), octets).status != Lost
      modifies Parts()
      ensures error.None? ==> Valid()
      ensures Decoded(View(), out, StatusOf(error)) == DecodeAll(old(View()), octets)
    {
      hide Inv, Mirrors, Step, Fits;
      out, error := [], None;
      for i := 0 to |octets|
        invariant Valid() && error.None?
        invariant Continue(Decoded(View(), out, Fine), DecodeAll(View(), octets[i..])) == DecodeAll(old(View()), octets)
      {
        assert octets[i..][1..] == octets[i + 1..];
        ghost var first := Step(View(), octets[i]);
        ContinueAssociates(Decoded(View(), out, Fine), first, DecodeAll(first.dec, octets[i + 1..]));
        var text;
        text, error := TakeOctet(octets[i]);
        out := out + text;
        if error.Some? {
          return;
        }
      }
      assert octets[|octets|..] == [];
      assert DecodeAll(View(), []) == Decoded(View(), [], Fine);
      assert out + [] == out;
    }
  }

  lemma NothingFits()
    ensures Fits(0, 0)
  {
  }

  lemma DecodeShrinks(d: Dec, code: nat)
    requires DecOk(d)
    ensures Decode(d, code).dec.count <= d.count
  {
    hide Inv, Add, String;
  }

  lemma StringStarts(d: Dict, code: nat)
    requires Inv(d) && Known(d, code)
    ensures |String(d, code)| >= 1
  {
  }
}
