/** What the encoder makes of a text: the longest strings that its dictionary has, one after another. */
module V42Greedy {
  import opened Prelude
  import opened V42Dictionary
  import opened V42bis
  import opened V42Line
  import opened V42RoundTrip

  // Strings and their codewords.

  lemma {:induction false} StringsDiffer(d: Dict, a: nat, b: nat)
    requires Inv(d) && Known(d, a) && Known(d, b) && String(d, a) == String(d, b)
    ensures a == b
    decreases Len(d, a)
  {
    StringParts(d, a);
    StringParts(d, b);
    if !IsRoot(a) {
      var p, q := d.entries[a], d.entries[b];
      PartsAlike(String(d, p.parent), p.character, String(d, q.parent), q.character);
      StringsDiffer(d, p.parent, q.parent);
      assert HasKey(d, a, p.parent, p.character) && HasKey(d, b, p.parent, p.character);
    }
  }

  lemma PartsAlike(s: Octets, a: Octet, t: Octets, b: Octet)
    requires s + [a] == t + [b]
    ensures s == t && a == b
  {
    assert (s + [a])[|s|] == a && (t + [b])[|t|] == b;
    assert (s + [a])[..|s|] == s && (t + [b])[..|t|] == t;
  }

  /** The entry of a string one character longer is the child. */
  lemma LongerIsChild(d: Dict, s: nat, t: nat, c: Octet)
    requires Inv(d) && Known(d, s) && Known(d, t) && String(d, t) == String(d, s) + [c]
    ensures HasKey(d, t, s, c)
  {
    StringParts(d, t);
    StringParts(d, s);
    var e := d.entries[t];
    PartsAlike(String(d, e.parent), e.character, String(d, s), c);
    StringsDiffer(d, e.parent, s);
  }

  /** A string that one character would make into another that is known, and is not the entry made last. */
  ghost predicate GoesOn(d: Dict, barred: Option<nat>, s: nat, c: Octet, t: nat)
    requires Inv(d) && Known(d, s)
  {
    Known(d, t) && String(d, t) == String(d, s) + [c] && barred != Some(t)
  }

  /**
   * A string in hand goes on with a character exactly if the dictionary has it with that character added, other than as
   * the entry made last; if it does not, it ends, the dictionary is given the longer one, and the character begins
   * another.
   */
  lemma PushIsGreedy(m: Matcher, d: Dict, c: Octet)
    requires MatcherOk(m, d) && m.current.Some? && !m.exception
    ensures var s, p := m.current.value, Push(m, d, c);
      && (p.ended.None? <==> exists t: nat :: GoesOn(d, m.lastCreated, s, c, t))
      && (p.ended.None? ==>
        p.matcher.current.Some? && GoesOn(d, m.lastCreated, s, c, p.matcher.current.value)
        && p.dict == d && p.matcher.lastCreated == m.lastCreated)
      && (p.ended.Some? ==>
        && p.ended == Some(s) && p.matcher.current == Some(Root(c)) && (p.dict, p.matcher.lastCreated) == Add(d, s, c)
        && forall t: nat :: Known(d, t) && String(d, t) == String(d, s) + [c] ==> m.lastCreated == Some(t))
      && !p.matcher.exception
  {
    var s := m.current.value;
    var child := Child(d, s, c);
    if child.Some? {
      StringParts(d, child.value);
    }
    forall t: nat | Known(d, t) && String(d, t) == String(d, s) + [c] ensures child == Some(t) {
      LongerIsChild(d, s, t, c);
      assert HasKey(d, child.value, s, c);
    }
    if child.Some? && child != m.lastCreated {
      assert GoesOn(d, m.lastCreated, s, c, child.value);
    }
  }

  // The escape character.

  /** How often the escape character is met in a text, where `n` were met before it. */
  function Met(text: Octets, n: nat): nat
    decreases |text|
  {
    if text == [] then n else Met(text[1..], if text[0] == 51 * n % 256 then n + 1 else n)
  }

  lemma EscapeSteps(n: nat, c: Octet)
    ensures NextEscape(51 * n % 256, c) == 51 * (if c == 51 * n % 256 then n + 1 else n) % 256
  {
    if c == 51 * n % 256 {
      var a := 51 * n;
      assert 51 * (n + 1) == a + 51;
      OneStep(a);
    }
  }

  lemma OneStep(a: nat)
    ensures (a % 256 + 51) % 256 == (a + 51) % 256
  {
    var q, r := a / 256, a % 256;
    assert a + 51 == r + 51 + 256 * q;
    Add256s(r + 51, q);
  }

  lemma Add256s(v: nat, q: nat)
    ensures (v + 256 * q) % 256 == v % 256
  {
  }

  lemma TestKeepsEscape(e: Enc)
    ensures Test(e).escape == e.escape
  {
    hide Codeword, PutBits, Align;
    if e.matcher.current.Some? {
      CodewordWrites(e.(windowCharacters := 0, windowBits := 0), e.matcher.current.value);
    }
  }

  lemma CharacterEscapes(e: Enc, c: Octet)
    requires MatcherOk(e.matcher, e.dict)
    ensures Character(e, c).escape == NextEscape(e.escape, c)
  {
    hide Test, SendEnded, Push, NextEscape, Inv, Known;
    TestKeepsEscape(Send(e, c));
  }

  lemma {:induction false} EncodeEscapes(e: Enc, text: Octets, n: nat)
    requires MatcherOk(e.matcher, e.dict) && e.escape == 51 * n % 256
    ensures Encode(e, text).escape == 51 * Met(text, n) % 256
    decreases |text|
  {
    hide Character, Inv, Known, NextEscape;
    if text != [] {
      CharacterEscapes(e, text[0]);
      EscapeSteps(n, text[0]);
      EncodeEscapes(Character(e, text[0]), text[1..], if text[0] == 51 * n % 256 then n + 1 else n);
    }
  }

  lemma FlushKeepsEscape(e: Enc)
    ensures Flush(e).escape == e.escape
  {
    hide Codeword, PutBits, Align;
    if e.matcher.current.Some? {
      CodewordWrites(e, e.matcher.current.value);
    }
  }

  lemma {:induction false} MetInParts(a: Octets, b: Octets, n: nat)
    ensures Met(a + b, n) == Met(b, Met(a, n))
    decreases |a|
  {
    if a == [] {
      assert a + b == b;
    } else {
      assert (a + b)[1..] == a[1..] + b;
      MetInParts(a[1..], b, if a[0] == 51 * n % 256 then n + 1 else n);
    }
  }

  lemma {:induction false} RunEscapes(e: Enc, ops: seq<Op>, n: nat)
    requires MatcherOk(e.matcher, e.dict) && e.escape == 51 * n % 256
    ensures Run(e, ops).escape == 51 * Met(TextOf(ops), n) % 256
    decreases |ops|
  {
    hide Inv, Known, Encode, Flush;
    if ops != [] {
      var text := if ops[0].Data? then ops[0].text else [];
      if ops[0].Data? {
        EncodeEscapes(e, text, n);
      } else {
        FlushKeepsEscape(e);
      }
      RunEscapes(Perform(e, ops[0]), ops[1..], Met(text, n));
      MetInParts(text, TextOf(ops[1..]), n);
    }
  }

  /** In every run the escape character is 51 times the number of times it was met, modulo 256. */
  lemma EscapeCycles(parameters: Parameters, ops: seq<Op>)
    requires parameters.Valid()
    ensures Run(NewEnc(parameters), ops).escape == 51 * Met(TextOf(ops), 0) % 256
  {
    hide Run, Inv, Met;
    RunEscapes(NewEnc(parameters), ops, 0);
  }

  // The longest string.

  lemma {:induction false} AncestorString(d: Dict, node: nat, length: nat)
    requires Inv(d) && Known(d, node) && 1 <= length <= Len(d, node)
    ensures String(d, Ancestor(d, node, length)) == String(d, node)[..length]
    decreases Len(d, node)
  {
    StringParts(d, node);
    if length < Len(d, node) {
      AncestorString(d, d.entries[node].parent, length);
    }
  }

  /** The entry made last has nothing below it. */
  ghost predicate Barren(d: Dict, barred: Option<nat>) {
    barred.Some? ==> !HasChild(d, barred.value)
  }

  /** A string that `word` begins with, and no longer one does but the entry made last. */
  ghost predicate Longest(d: Dict, barred: Option<nat>, s: nat, word: Octets)
    requires Inv(d)
  {
    && Known(d, s) && String(d, s) <= word
    && forall t: nat :: Known(d, t) && barred != Some(t) && String(d, t) <= word ==> |String(d, t)| <= |String(d, s)|
  }

  lemma LongerIsBarred(d: Dict, barred: Option<nat>, s: nat, t: nat, c: Octet, word: Octets)
    requires Inv(d) && Known(d, s) && Known(d, t) && Barren(d, barred)
    requires String(d, s) + [c] <= word && String(d, t) <= word && |String(d, t)| > |String(d, s)|
    requires forall t: nat :: Known(d, t) && String(d, t) == String(d, s) + [c] ==> barred == Some(t)
    ensures barred == Some(t)
  {
    var n := |String(d, s)| + 1;
    var a := Ancestor(d, t, n);
    AncestorString(d, t, n);
    assert word[..n] == String(d, s) + [c] && String(d, t)[..n] == word[..n];
    if |String(d, t)| > n {
      AncestorStep(d, t, n);
      assert HasChild(d, a);
    }
  }

  lemma EndsLongest(m: Matcher, d: Dict, c: Octet, word: Octets)
    requires MatcherOk(m, d) && m.current.Some? && !m.exception && Barren(d, m.lastCreated)
    requires Push(m, d, c).ended.Some? && String(d, m.current.value) + [c] <= word
    ensures Longest(d, m.lastCreated, m.current.value, word)
  {
    hide Push, Tree, String, Barren;
    var s := m.current.value;
    PushIsGreedy(m, d, c);
    assert String(d, s) <= String(d, s) + [c];
    forall t: nat | Known(d, t) && m.lastCreated != Some(t) && String(d, t) <= word
      ensures |String(d, t)| <= |String(d, s)|
    {
      if |String(d, t)| > |String(d, s)| {
        LongerIsBarred(d, m.lastCreated, s, t, c, word);
      }
    }
  }

  lemma PushKeepsBarren(m: Matcher, d: Dict, c: Octet)
    requires MatcherOk(m, d) && Barren(d, m.lastCreated)
    ensures var p := Push(m, d, c); Barren(p.dict, p.matcher.lastCreated)
  {
    hide Inv, HasChild;
    if m.current.Some? {
      AddKeepsInv(d, m.current.value, c);
      MadeIsNext(d, m.current.value, c);
    }
  }

  lemma MadeIsNext(d: Dict, node: nat, c: Octet)
    requires Inv(d) && Known(d, node)
    ensures Add(d, node, c).1.Some? ==> Add(d, node, c).1.value == d.next
  {
  }

  // The parse of a text.

  /** The codewords of the strings that end within a text, in order. */
  ghost function Phrases(m: Matcher, d: Dict, text: Octets): seq<nat>
    requires MatcherOk(m, d)
    decreases |text|
  {
    if text == [] then []
    else
      PushKeepsOk(m, d, text[0]);
      var p := Push(m, d, text[0]);
      (if p.ended.Some? then [p.ended.value] else []) + Phrases(p.matcher, p.dict, text[1..])
  }

  /**
   * A word taken apart with codewords: each string is the longest that the dictionary has of what remains, bar the
   * entry made last, and the dictionary is given each with the character after it. What remains at the end is the
   * string of `held`.
   */
  ghost predicate Greedy(
      d: Dict, barred: Option<nat>, word: Octets, codes: seq<nat>, d': Dict, barred': Option<nat>, held: nat)
    decreases |codes|
  {
    Inv(d)
    && if codes == [] then
      d' == d && barred' == barred && Known(d, held) && word == String(d, held)
    else
      var s := codes[0];
      && Longest(d, barred, s, word) && |String(d, s)| < |word|
      && var (next, made) := Add(d, s, word[|String(d, s)|]);
      Greedy(next, made, word[|String(d, s)|..], codes[1..], d', barred', held)
  }

  /** The encoder with these codewords sent. */
  function PutAll(e: Enc, codes: seq<nat>): Enc
    decreases |codes|
  {
    if codes == [] then e else PutAll(Codeword(e, codes[0]).0, codes[1..])
  }

  /** A codeword goes out as the writer and the width have it. */
  lemma {:induction false} CodewordAlike(e: Enc, f: Enc, code: nat)
    requires f.writer == e.writer && f.width == e.width
    ensures Codeword(f, code).0.writer == Codeword(e, code).0.writer
    ensures Codeword(f, code).0.width == Codeword(e, code).0.width && Codeword(f, code).1 == Codeword(e, code).1
    decreases code - Pow2(e.width)
  {
    hide PutBits;
    if code >= Pow2(e.width) {
      CodewordAlike(Put(e, STEPUP).(width := e.width + 1), Put(f, STEPUP).(width := f.width + 1), code);
    }
  }

  lemma {:induction false} PutAllAlike(e: Enc, f: Enc, codes: seq<nat>)
    requires f.writer == e.writer && f.width == e.width
    ensures PutAll(f, codes).writer == PutAll(e, codes).writer && PutAll(f, codes).width == PutAll(e, codes).width
    decreases |codes|
  {
    hide Codeword;
    if codes != [] {
      CodewordAlike(e, f, codes[0]);
      PutAllAlike(Codeword(e, codes[0]).0, Codeword(f, codes[0]).0, codes[1..]);
    }
  }

  /** No window ends the compressed mode while the text is taken. */
  ghost predicate StaysCompressed(e: Enc, text: Octets)
    requires MatcherOk(e.matcher, e.dict)
    decreases |text|
  {
    e.compressed && (text != [] ==> StaysCompressed(Character(e, text[0]), text[1..]))
  }

  /** A character in compressed mode sends the codeword of the string it ends, and changes the dictionary as pushed. */
  lemma CompressesOne(e: Enc, c: Octet)
    requires MatcherOk(e.matcher, e.dict) && e.compressed && Character(e, c).compressed
    ensures var p, e' := Push(e.matcher, e.dict, c), Character(e, c);
      && e'.matcher == p.matcher && e'.dict == p.dict
      && (e'.writer, e'.width) == if p.ended.None? then (e.writer, e.width)
        else (Codeword(e, p.ended.value).0.writer, Codeword(e, p.ended.value).0.width)
  {
    hide Push, Inv, Known, Codeword, PutBits, Align;
    var p := Push(e.matcher, e.dict, c);
    if p.ended.Some? {
      var e1 := e.(matcher := p.matcher, dict := p.dict);
      CodewordAlike(e, e1, p.ended.value);
      CodewordWrites(e1, p.ended.value);
    }
  }

  /** The parse does not see how the word was gathered. */
  lemma GreedyNext(
      d: Dict, barred: Option<nat>, s: nat, c: Octet, rest: Octets, codes: seq<nat>, d': Dict, barred': Option<nat>,
      held: nat)
    requires Inv(d) && Known(d, s) && Longest(d, barred, s, String(d, s) + ([c] + rest))
    requires var (next, made) := Add(d, s, c); Greedy(next, made, [c] + rest, codes, d', barred', held)
    ensures Greedy(d, barred, String(d, s) + ([c] + rest), [s] + codes, d', barred', held)
  {
    hide Longest, Tree, String, Add;
    var word := String(d, s) + ([c] + rest);
    assert word[|String(d, s)|] == c && word[|String(d, s)|..] == [c] + rest;
    assert ([s] + codes)[0] == s && ([s] + codes)[1..] == codes;
  }

  lemma NothingMore(d: Dict, barred: Option<nat>, s: nat)
    requires Inv(d) && Known(d, s)
    ensures Greedy(d, barred, String(d, s) + [], [], d, barred, s)
  {
    assert String(d, s) + [] == String(d, s);
  }

  lemma {:induction false} EncodeParses(e: Enc, text: Octets)
    requires MatcherOk(e.matcher, e.dict) && e.matcher.current.Some? && !e.matcher.exception
    requires Barren(e.dict, e.matcher.lastCreated) && StaysCompressed(e, text)
    ensures var e', codes := Encode(e, text), Phrases(e.matcher, e.dict, text);
      && e'.matcher.current.Some?
      && Greedy(e.dict, e.matcher.lastCreated, String(e.dict, e.matcher.current.value) + text, codes, e'.dict,
        e'.matcher.lastCreated, e'.matcher.current.value)
      && e'.writer == PutAll(e, codes).writer
    decreases |text|
  {
    hide Push, Tree, String, Barren, Longest, Character, Codeword, Known, Greedy;
    var m, d := e.matcher, e.dict;
    if text == [] {
      NothingMore(d, m.lastCreated, m.current.value);
      assert text == [];
    } else {
      var c := text[0];
      var p, e1 := Push(m, d, c), Character(e, c);
      PushIsGreedy(m, d, c);
      PushKeepsOk(m, d, c);
      PushKeepsBarren(m, d, c);
      CompressesOne(e, c);
      EncodeParses(e1, text[1..]);
      assert text == [c] + text[1..];
      var codes := Phrases(e1.matcher, e1.dict, text[1..]);
      if p.ended.None? {
        Associates(String(d, m.current.value), [c], text[1..]);
        assert [] + codes == codes;
        PutAllAlike(e, e1, codes);
      } else {
        NewString(e1.dict, c);
        Associates(String(d, m.current.value), [c], text[1..]);
        EndsLongest(m, d, c, String(d, m.current.value) + text);
        GreedyNext(d, m.lastCreated, m.current.value, c, text[1..], codes, Encode(e, text).dict,
          Encode(e, text).matcher.lastCreated, Encode(e, text).matcher.current.value);
        PutAllAlike(Codeword(e, m.current.value).0, e1, codes);
        assert ([m.current.value] + codes)[1..] == codes;
      }
    }
  }

  // In every run.

  lemma TestKeepsMatcher(e: Enc)
    ensures Test(e).dict == e.dict && Test(e).matcher.lastCreated == e.matcher.lastCreated
    ensures Flush(e).dict == e.dict && Flush(e).matcher.lastCreated == e.matcher.lastCreated
  {
    hide Codeword, PutBits, Align;
    if e.matcher.current.Some? {
      CodewordWrites(e.(windowCharacters := 0, windowBits := 0), e.matcher.current.value);
      CodewordWrites(e, e.matcher.current.value);
    }
  }

  lemma CharacterMatches(e: Enc, c: Octet)
    requires MatcherOk(e.matcher, e.dict)
    ensures var p, e' := Push(e.matcher, e.dict, c), Character(e, c);
      e'.dict == p.dict && e'.matcher.lastCreated == p.matcher.lastCreated
  {
    hide Push, Inv, Known, Codeword, PutBits, Test;
    var p := Push(e.matcher, e.dict, c);
    TestKeepsMatcher(Send(e, c));
    if p.ended.Some? {
      CodewordWrites(e.(matcher := p.matcher, dict := p.dict), p.ended.value);
    }
  }

  lemma {:induction false} EncodeBarren(e: Enc, text: Octets)
    requires MatcherOk(e.matcher, e.dict) && Barren(e.dict, e.matcher.lastCreated)
    ensures var e' := Encode(e, text); Barren(e'.dict, e'.matcher.lastCreated)
    decreases |text|
  {
    hide Push, Inv, Known, Character, Barren;
    if text != [] {
      PushKeepsBarren(e.matcher, e.dict, text[0]);
      CharacterMatches(e, text[0]);
      EncodeBarren(Character(e, text[0]), text[1..]);
    }
  }

  lemma {:induction false} RunBarren(e: Enc, ops: seq<Op>)
    requires MatcherOk(e.matcher, e.dict) && Barren(e.dict, e.matcher.lastCreated)
    ensures var e' := Run(e, ops); Barren(e'.dict, e'.matcher.lastCreated)
    decreases |ops|
  {
    hide Inv, Known, Encode, Flush, Barren;
    if ops != [] {
      if ops[0].Data? {
        EncodeBarren(e, ops[0].text);
      } else {
        TestKeepsMatcher(e);
      }
      RunBarren(Perform(e, ops[0]), ops[1..]);
    }
  }

  /** What a character finds: the dictionary and the entry made last, once a string that was sent is done with. */
  ghost function Begun(e: Enc, c: Octet): (Dict, Option<nat>)
    requires MatcherOk(e.matcher, e.dict) && e.matcher.current.Some?
  {
    if e.matcher.exception then Add(e.dict, e.matcher.current.value, c) else (e.dict, e.matcher.lastCreated)
  }

  lemma BeginsAgain(e: Enc, c: Octet)
    requires MatcherOk(e.matcher, e.dict) && e.matcher.current.Some? && e.matcher.exception
    ensures var p := Push(e.matcher, e.dict, c);
      && p.ended.None? && p.matcher.current == Some(Root(c)) && !p.matcher.exception
      && (p.dict, p.matcher.lastCreated) == Begun(e, c) && MatcherOk(p.matcher, p.dict)
      && String(p.dict, Root(c)) == [c]
  {
    hide Add;
    PushKeepsOk(e.matcher, e.dict, c);
    NewString(Push(e.matcher, e.dict, c).dict, c);
  }

  /**
   * In every run, a text taken in compressed mode, with what was held before it, is parsed greedily: the codewords that
   * the encoder sends are those of the longest strings one after another, and it holds what is left.
   */
  lemma ParsesGreedily(parameters: Parameters, ops: seq<Op>, text: Octets)
    requires parameters.Valid() && text != []
    requires StaysCompressed(Run(NewEnc(parameters), ops), text)
    ensures var e := Run(NewEnc(parameters), ops);
      var e', codes := Encode(e, text), Phrases(e.matcher, e.dict, text);
      && e.matcher.current.Some? && e'.matcher.current.Some?
      && var (d, barred) := Begun(e, text[0]);
      && Greedy(d, barred, Held(e) + text, codes, e'.dict, e'.matcher.lastCreated, e'.matcher.current.value)
      && e'.writer == PutAll(e, codes).writer
  {
    hide Push, Inv, Known, Run, Character, Greedy, Barren, Reaches, Add, String, Codeword;
    var d0 := NewDec(parameters);
    StartsInStep(parameters);
    NewIsBarren(parameters);
    RunBarren(NewEnc(parameters), ops);
    var k, total := RunKeepsStep(d0, NewEnc(parameters), d0, [], [], ops);
    var e := Run(NewEnc(parameters), ops);
    assert e.matcher.current.Some?;
    if e.matcher.exception {
      var c := text[0];
      var e1 := Character(e, c);
      BeginsAgain(e, c);
      CompressesOne(e, c);
      PushKeepsBarren(e.matcher, e.dict, c);
      EncodeParses(e1, text[1..]);
      assert [] + text == [c] + text[1..];
      var codes := Phrases(e1.matcher, e1.dict, text[1..]);
      assert [] + codes == codes;
      PutAllAlike(e, e1, codes);
    } else {
      EncodeParses(e, text);
    }
  }

  lemma NewIsBarren(parameters: Parameters)
    requires parameters.Valid()
    ensures Barren(NewEnc(parameters).dict, NewEnc(parameters).matcher.lastCreated)
  {
  }
}
