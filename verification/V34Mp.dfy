/** The MP sequences of section 10.1.3.9 of V.34: framing them, and finding them among bits. */
module V34Mp {
  import opened Prelude
  import opened BitField
  import opened Fcs

  const SYNC_ONES := 17
  const WORD := 16
  const BLOCK := 17
  const TYPE_0_WORDS := 4
  const TYPE_1_WORDS := 10
  /** Sync and blocks of the longer type. */
  const LONGEST := 187

  datatype Tap = Tap(re: I16, im: I16)

  /** Tables 20 and 21, with the trellis as its code. */
  datatype Mp = Mp(
    maxCallToAnswer: nat,
    maxAnswerToCall: nat,
    auxiliary: bool,
    trellis: nat,
    nonlinear: bool,
    expandedShaping: bool,
    acknowledge: bool,
    rates: nat,
    asymmetric: bool,
    precoding: Option<seq<Tap>>)

  /** What fits the fields of the tables. */
  predicate WellFormed(mp: Mp) {
    && mp.maxCallToAnswer < 16 && mp.maxAnswerToCall < 16
    && mp.trellis < 3
    && mp.rates < 16384
    && (mp.precoding.Some? ==> |mp.precoding.value| == 3)
  }

  // Words, their bits least significant first.

  function FirstWord(mp: Mp): (w: Bits)
    ensures |w| == WORD
  {
    [mp.precoding.Some?, false] + FieldBits(mp.maxCallToAnswer, 4) + FieldBits(mp.maxAnswerToCall, 4)
    + [mp.auxiliary] + FieldBits(mp.trellis, 2) + [mp.nonlinear, mp.expandedShaping, mp.acknowledge]
  }

  function SecondWord(mp: Mp): (w: Bits)
    ensures |w| == WORD
  {
    FieldBits(mp.rates, 14) + [false, mp.asymmetric]
  }

  /** Two's complement. */
  function SignedWord(v: I16): (w: Bits)
    ensures |w| == WORD
  {
    FieldBits(if v < 0 then v + 65536 else v, WORD)
  }

  function SignedOf(w: Bits): I16
    requires |w| == WORD
  {
    assert Pow2(16) == 65536 by { WordValues(); }
    var v := FieldOf(w);
    if v >= 32768 then v - 65536 else v
  }

  lemma WordValues()
    ensures Pow2(16) == 65536 && Pow2(4) == 16 && Pow2(2) == 4 && Pow2(14) == 16384
  {
    assert Pow2(8) == 256;
    Pow2Adds(8, 8);
    Pow2Adds(8, 6);
  }

  function TapWords(taps: seq<Tap>): (words: seq<Bits>)
    ensures |words| == 2 * |taps| && forall w :: w in words ==> |w| == WORD
  {
    if taps == [] then [] else [SignedWord(taps[0].re), SignedWord(taps[0].im)] + TapWords(taps[1..])
  }

  const NO_BITS: Bits := [
    false, false, false, false, false, false, false, false, false, false, false, false, false, false, false, false]

  function Words(mp: Mp): (words: seq<Bits>)
    ensures forall w :: w in words ==> |w| == WORD
  {
    [FirstWord(mp), SecondWord(mp)] + (if mp.precoding.Some? then TapWords(mp.precoding.value) else []) + [NO_BITS]
  }

  /** The words with their CRC after them. */
  function Checked(mp: Mp): (words: seq<Bits>)
    ensures forall w :: w in words ==> |w| == WORD
  {
    Words(mp) + [WordBits(Crc(FCS_INIT, Flatten(Words(mp))), WORD)]
  }

  function Blocks(words: seq<Bits>): Bits {
    if words == [] then [] else [false] + words[0] + Blocks(words[1..])
  }

  function Run(bit: bool, n: nat): (bits: Bits)
    ensures |bits| == n && forall i :: 0 <= i < n ==> bits[i] == bit
  {
    if n == 0 then [] else [bit] + Run(bit, n - 1)
  }

  /** Sync and blocks, up to the CRC. */
  function Body(mp: Mp): Bits {
    Run(true, SYNC_ONES) + Blocks(Checked(mp))
  }

  function FillBits(mp: Mp): nat {
    if mp.precoding.Some? then 1 else 3
  }

  /** A sequence as it is sent; start bits before every word keep the sync from standing anywhere else (`OnlySync`). */
  function Frame(mp: Mp): Bits {
    Body(mp) + Run(false, FillBits(mp))
  }

  /** Words as they are taken apart again, if the trellis is one of the three. */
  function FromWords(words: seq<Bits>): Option<Mp>
    requires |words| >= 2 && forall w :: w in words ==> |w| == WORD
    requires words[0][0] ==> |words| >= 8
  {
    var first, second := words[0], words[1];
    assert first in words && second in words;
    var trellis := FieldOf(first[11..13]);
    if trellis == 3 then None
    else
      var precoding :=
        if first[0] then Some([TapAt(words, 0), TapAt(words, 1), TapAt(words, 2)]) else None;
      Some(Mp(
        FieldOf(first[2..6]), FieldOf(first[6..10]), first[10], trellis, first[13], first[14], first[15],
        FieldOf(second[..14]), second[15], precoding))
  }

  function TapAt(words: seq<Bits>, n: nat): Tap
    requires 2 * n + 3 < |words| && forall w :: w in words ==> |w| == WORD
  {
    assert words[2 + 2 * n] in words && words[3 + 2 * n] in words;
    Tap(SignedOf(words[2 + 2 * n]), SignedOf(words[3 + 2 * n]))
  }

  // Taking a frame apart.

  predicate AllOnes(bits: Bits) {
    forall i :: 0 <= i < |bits| ==> bits[i]
  }

  /** The words of blocks, if every start bit is 0. */
  function Unblock(bits: Bits): Option<seq<Bits>>
    requires |bits| % BLOCK == 0
    decreases |bits|
  {
    if bits == [] then Some([])
    else if bits[0] then None
    else
      var rest := Unblock(bits[BLOCK..]);
      if rest.None? then None else Some([bits[1..BLOCK]] + rest.value)
  }

  lemma {:induction false} UnblockIs(bits: Bits)
    requires |bits| % BLOCK == 0
    ensures Unblock(bits).Some? ==>
      && Blocks(Unblock(bits).value) == bits
      && |Unblock(bits).value| == |bits| / BLOCK
      && forall w :: w in Unblock(bits).value ==> |w| == WORD
    decreases |bits|
  {
    if bits != [] && !bits[0] {
      UnblockIs(bits[BLOCK..]);
      if Unblock(bits).Some? {
        var words := Unblock(bits).value;
        assert words[0] == bits[1..BLOCK] && words[1..] == Unblock(bits[BLOCK..]).value;
        assert bits == [false] + bits[1..BLOCK] + bits[BLOCK..];
      }
    }
  }

  lemma {:induction false} BlocksUnblock(words: seq<Bits>)
    requires forall w :: w in words ==> |w| == WORD
    ensures |Blocks(words)| == BLOCK * |words|
    ensures Unblock(Blocks(words)) == Some(words)
  {
    if words != [] {
      assert words[0] in words;
      assert forall w :: w in words[1..] ==> w in words;
      BlocksUnblock(words[1..]);
      var bits := Blocks(words);
      assert bits[1..BLOCK] == words[0] && bits[BLOCK..] == Blocks(words[1..]);
      assert words == [words[0]] + words[1..];
    }
  }

  /** The bits that a frame of `count` words would be. */
  function FrameAt(x: Bits, count: nat): Bits
    requires |x| >= SYNC_ONES + count * BLOCK
  {
    x[|x| - (SYNC_ONES + count * BLOCK)..]
  }

  /** The `count` words of a frame that ends where the bits do, without their CRC, if it is good. */
  function WordsAtEnd(bits: Bits, count: nat): (words: Option<seq<Bits>>)
    requires count >= 1
    ensures words.Some? ==> |words.value| == count - 1 && forall w :: w in words.value ==> |w| == WORD
  {
    var length := SYNC_ONES + count * BLOCK;
    if |bits| < length then None
    else
      var frame := FrameAt(bits, count);
      if !AllOnes(frame[..SYNC_ONES]) then None
      else
        var found := Unblock(frame[SYNC_ONES..]);
        UnblockIs(frame[SYNC_ONES..]);
        if found.None? || Crc(FCS_INIT, Flatten(found.value)) != 0 then None
        else Some(found.value[..count - 1])
  }

  /** A frame of `count` words at the end of the bits, if its type bit is that of its length. */
  function MpAtEnd(bits: Bits, count: nat): Option<Mp>
    requires count == TYPE_0_WORDS || count == TYPE_1_WORDS
  {
    var words := WordsAtEnd(bits, count);
    if words.None? then None
    else
      assert words.value[0] in words.value;
      if words.value[0][0] != (count == TYPE_1_WORDS) then None else FromWords(words.value)
  }

  /** The last bits heard and every sequence found in those before them. */
  datatype Deframer = Deframer(window: Bits, ones: nat, found: seq<Mp>)

  function Newest(bits: Bits): Bits {
    if |bits| > LONGEST then bits[|bits| - LONGEST..] else bits
  }

  function MpIn(window: Bits): Option<Mp> {
    var short := MpAtEnd(window, TYPE_0_WORDS);
    if short.Some? then short else MpAtEnd(window, TYPE_1_WORDS)
  }

  function Push(d: Deframer, bit: bool): Deframer {
    var ones := if bit then d.ones + 1 else 0;
    var window := Newest(d.window + [bit]);
    var mp := MpIn(window);
    if mp.Some? then Deframer([], ones, d.found + [mp.value]) else Deframer(window, ones, d.found)
  }

  function Hear(d: Deframer, bits: Bits): Deframer
    decreases |bits|
  {
    if bits == [] then d else Push(Hear(d, bits[..|bits| - 1]), bits[|bits| - 1])
  }

  lemma {:induction false} HearAppends(d: Deframer, a: Bits, b: Bits)
    ensures Hear(d, a + b) == Hear(Hear(d, a), b)
    decreases |b|
  {
    hide Push;
    if b == [] {
      assert a + b == a;
    } else {
      HearAppends(d, a, b[..|b| - 1]);
      assert (a + b)[..|a + b| - 1] == a + b[..|b| - 1];
    }
  }

  // The fields come back.

  lemma FirstWordInverts(mp: Mp)
    requires WellFormed(mp)
    ensures var w := FirstWord(mp);
      && w[0] == mp.precoding.Some?
      && FieldOf(w[2..6]) == mp.maxCallToAnswer && FieldOf(w[6..10]) == mp.maxAnswerToCall
      && w[10] == mp.auxiliary && FieldOf(w[11..13]) == mp.trellis
      && w[13] == mp.nonlinear && w[14] == mp.expandedShaping && w[15] == mp.acknowledge
  {
    hide FieldBits, FieldOf;
    var w := FirstWord(mp);
    WordValues();
    FieldInverts(mp.maxCallToAnswer, 4);
    FieldInverts(mp.maxAnswerToCall, 4);
    FieldInverts(mp.trellis, 2);
    assert w[2..6] == FieldBits(mp.maxCallToAnswer, 4);
    assert w[6..10] == FieldBits(mp.maxAnswerToCall, 4);
    assert w[11..13] == FieldBits(mp.trellis, 2);
  }

  lemma SecondWordInverts(mp: Mp)
    requires WellFormed(mp)
    ensures FieldOf(SecondWord(mp)[..14]) == mp.rates && SecondWord(mp)[15] == mp.asymmetric
  {
    hide FieldBits, FieldOf;
    WordValues();
    FieldInverts(mp.rates, 14);
    assert SecondWord(mp)[..14] == FieldBits(mp.rates, 14);
  }

  lemma SignedInverts(v: I16)
    ensures SignedOf(SignedWord(v)) == v
  {
    hide FieldBits, FieldOf;
    WordValues();
    FieldInverts(if v < 0 then v + 65536 else v, WORD);
  }

  lemma WordCount(mp: Mp)
    requires WellFormed(mp)
    ensures |Words(mp)| == if mp.precoding.Some? then 9 else 3
    ensures Words(mp)[0] == FirstWord(mp) && Words(mp)[1] == SecondWord(mp)
  {
    hide FirstWord, SecondWord, TapWords;
  }

  lemma TapWordsAre(taps: seq<Tap>)
    requires |taps| == 3
    ensures TapWords(taps) == [
      SignedWord(taps[0].re), SignedWord(taps[0].im), SignedWord(taps[1].re), SignedWord(taps[1].im),
      SignedWord(taps[2].re), SignedWord(taps[2].im)]
  {
    hide SignedWord;
    assert TapWords(taps[2..]) == [SignedWord(taps[2].re), SignedWord(taps[2].im)];
    assert TapWords(taps[1..]) == [SignedWord(taps[1].re), SignedWord(taps[1].im)] + TapWords(taps[2..]);
  }

  lemma TapInverts(words: seq<Bits>, n: nat, tap: Tap)
    requires 2 * n + 3 < |words| && forall w :: w in words ==> |w| == WORD
    requires words[2 + 2 * n] == SignedWord(tap.re) && words[3 + 2 * n] == SignedWord(tap.im)
    ensures TapAt(words, n) == tap
  {
    hide SignedWord, SignedOf;
    SignedInverts(tap.re);
    SignedInverts(tap.im);
  }

  lemma TapsInvert(mp: Mp)
    requires WellFormed(mp) && mp.precoding.Some?
    ensures |Words(mp)| == 9
    ensures [TapAt(Words(mp), 0), TapAt(Words(mp), 1), TapAt(Words(mp), 2)] == mp.precoding.value
  {
    hide Words, TapAt;
    WordCount(mp);
    TapComesBack(mp, 0);
    TapComesBack(mp, 1);
    TapComesBack(mp, 2);
  }

  lemma TapComesBack(mp: Mp, n: nat)
    requires WellFormed(mp) && mp.precoding.Some? && n < 3
    ensures |Words(mp)| == 9 && TapAt(Words(mp), n) == mp.precoding.value[n]
  {
    hide Words, SignedWord, TapWords, TapAt;
    var taps := mp.precoding.value;
    WordCount(mp);
    TapWordsAre(taps);
    TapPlace(mp, 2 * n);
    TapPlace(mp, 2 * n + 1);
    TapInverts(Words(mp), n, taps[n]);
  }

  lemma TapPlace(mp: Mp, i: nat)
    requires mp.precoding.Some? && i < |TapWords(mp.precoding.value)|
    ensures 2 + i < |Words(mp)| && Words(mp)[2 + i] == TapWords(mp.precoding.value)[i]
  {
    hide FirstWord, SecondWord, TapWords;
  }

  lemma WordsInvert(mp: Mp)
    requires WellFormed(mp)
    ensures |Words(mp)| == if mp.precoding.Some? then 9 else 3
    ensures Words(mp)[0][0] == mp.precoding.Some?
    ensures FromWords(Words(mp)) == Some(mp)
  {
    hide FirstWord, SecondWord, Words, TapAt, FieldOf;
    WordCount(mp);
    FirstWordInverts(mp);
    SecondWordInverts(mp);
    if mp.precoding.Some? {
      TapsInvert(mp);
    }
  }

  // No sync but the real one.

  /** Bits all the same up to `s`, then a sync, then a 0 at every start bit, as far as the bits go. */
  ghost predicate Shaped(x: Bits, s: nat) {
    && s <= |x|
    && ((forall i :: 0 <= i < s ==> x[i]) || (forall i :: 0 <= i < s ==> !x[i]))
    && (forall i :: s <= i < s + SYNC_ONES && i < |x| ==> x[i])
    && (forall k :: 1 <= k && s + BLOCK * k < |x| ==> !StartBit(x, s, k))
  }

  predicate StartBit(x: Bits, s: nat, k: int)
    requires 0 <= k && s + BLOCK * k < |x|
  {
    x[s + BLOCK * k]
  }

  lemma StartIsZero(x: Bits, s: nat, k: nat)
    requires Shaped(x, s) && 1 <= k && s + BLOCK * k < |x|
    ensures !x[s + BLOCK * k]
  {
    assert !StartBit(x, s, k);
  }

  lemma FirstIsOne(x: Bits, o: nat)
    requires o + SYNC_ONES < |x| && forall i :: o <= i < o + SYNC_ONES ==> x[i]
    ensures x[o]
  {
  }

  lemma OnlySync(x: Bits, s: nat, o: nat)
    requires Shaped(x, s) && o + SYNC_ONES < |x|
    requires forall i :: o <= i < o + SYNC_ONES ==> x[i]
    requires !x[o + SYNC_ONES]
    ensures o == s
  {
    if o > s {
      var k := (o - s + 16) / BLOCK;
      StartIsZero(x, s, k);
      assert false;
    } else if o < s {
      FirstIsOne(x, o);
      assert false;
    }
  }

  lemma FoundIsSync(x: Bits, s: nat, count: nat)
    requires Shaped(x, s) && count >= 1 && WordsAtEnd(x, count).Some?
    ensures |x| - s == SYNC_ONES + count * BLOCK
  {
    hide Shaped;
    var o := |x| - (SYNC_ONES + count * BLOCK);
    var frame := x[o..];
    assert Unblock(frame[SYNC_ONES..]).Some?;
    assert !frame[SYNC_ONES..][0];
    forall i | o <= i < o + SYNC_ONES ensures x[i] {
      assert frame[..SYNC_ONES][i - o];
    }
    OnlySync(x, s, o);
  }

  lemma {:induction false} BlocksStart(words: seq<Bits>, k: nat)
    requires k < |words| && forall w :: w in words ==> |w| == WORD
    ensures |Blocks(words)| == BLOCK * |words| && !Blocks(words)[BLOCK * k]
    decreases k
  {
    BlocksUnblock(words);
    assert words[0] in words && forall w :: w in words[1..] ==> w in words;
    if k > 0 {
      BlocksStart(words[1..], k - 1);
      var head := [false] + words[0];
      assert Blocks(words) == head + Blocks(words[1..]) && |head| == BLOCK;
      assert Blocks(words)[BLOCK * k] == Blocks(words[1..])[BLOCK * k - BLOCK];
    }
  }

  lemma {:induction false} BlocksPrefix(words: seq<Bits>, n: nat)
    requires n <= |words| && forall w :: w in words ==> |w| == WORD
    ensures |Blocks(words)| == BLOCK * |words| && Blocks(words)[..BLOCK * n] == Blocks(words[..n])
    decreases n
  {
    BlocksUnblock(words);
    if n > 0 {
      assert words[0] in words && forall w :: w in words[1..] ==> w in words;
      BlocksPrefix(words[1..], n - 1);
      hide Blocks;
      BlocksStep(words);
      BlocksStep(words[..n]);
      assert words[..n][1..] == words[1..][..n - 1];
      TakeAcross([false] + words[0], Blocks(words[1..]), BLOCK * (n - 1));
    }
  }

  lemma BlocksStep(words: seq<Bits>)
    requires words != []
    ensures Blocks(words) == [false] + words[0] + Blocks(words[1..])
  {
  }

  lemma TakeAcross(head: Bits, rest: Bits, n: nat)
    requires n <= |rest|
    ensures (head + rest)[..|head| + n] == head + rest[..n]
  {
  }

  /** What the window can hold between frames. */
  predicate Quiet(w: Bits) {
    |w| <= LONGEST && ((forall i :: 0 <= i < |w| ==> w[i]) || (forall i :: 0 <= i < |w| ==> !w[i]))
  }

  lemma PrefixIsShaped(w: Bits, mp: Mp, n: nat)
    requires Quiet(w) && n <= |Body(mp)|
    ensures Shaped(w + Body(mp)[..n], |w|)
  {
    hide Checked, Blocks;
    var x, words := w + Body(mp)[..n], Checked(mp);
    BlocksUnblock(words);
    forall k | 1 <= k && |w| + BLOCK * k < |x| ensures !StartBit(x, |w|, k) {
      BlocksStart(words, k - 1);
      assert x[|w| + BLOCK * k] == Blocks(words)[BLOCK * (k - 1)];
    }
  }

  lemma BodyLength(mp: Mp)
    requires WellFormed(mp)
    ensures |Checked(mp)| == if mp.precoding.Some? then TYPE_1_WORDS else TYPE_0_WORDS
    ensures |Body(mp)| == SYNC_ONES + BLOCK * |Checked(mp)|
  {
    hide Words;
    WordCount(mp);
    BlocksUnblock(Checked(mp));
  }

  /** A type 0 sequence has 88 bits and a type 1 sequence 188, fill bits included. */
  lemma FrameLength(mp: Mp)
    requires WellFormed(mp)
    ensures |Frame(mp)| == if mp.precoding.Some? then 188 else 88
  {
    hide Body;
    BodyLength(mp);
  }

  // What is found in a frame, and when.

  lemma ShiftsOfZero(n: nat)
    ensures Shifts(0, n) == 0
    decreases n
  {
    if n > 0 {
      assert Shift(0) == 0;
      ShiftsOfZero(n - 1);
    }
  }

  lemma XorSelf(a: bv16)
    ensures Xor(a, a) == 0
  {
  }

  /** A register takes itself to 0. */
  lemma SelfCancels(crc: bv16)
    ensures Crc(crc, WordBits(crc, WORD)) == 0
  {
    hide Crc, Shifts, WordBits, Above, Xor;
    CrcFolds(crc, crc, 16);
    AboveAll(crc);
    XorZero(Crc(crc, WordBits(crc, 16)));
    XorSelf(crc);
    ShiftsOfZero(16);
  }

  lemma CheckedPasses(mp: Mp)
    ensures Crc(FCS_INIT, Flatten(Checked(mp))) == 0
  {
    hide Crc, WordBits, Words;
    var words := Words(mp);
    var crc := Crc(FCS_INIT, Flatten(words));
    FlattenAppends(words, [WordBits(crc, WORD)]);
    assert Flatten([WordBits(crc, WORD)]) == WordBits(crc, WORD);
    CrcAppends(FCS_INIT, Flatten(words), WordBits(crc, WORD));
    SelfCancels(crc);
  }

  /** The blocks after the sync, as far as `n` of them. */
  lemma BodyPrefix(mp: Mp, n: nat)
    requires 1 <= n <= |Checked(mp)|
    ensures SYNC_ONES + BLOCK * n <= |Body(mp)|
    ensures Body(mp)[..SYNC_ONES + BLOCK * n] == Run(true, SYNC_ONES) + Blocks(Checked(mp)[..n])
  {
    hide Checked, Blocks;
    BlocksPrefix(Checked(mp), n);
  }

  /** The bits end in a sync and the blocks of `words`. */
  predicate EndsIn(x: Bits, words: seq<Bits>) {
    && |x| >= SYNC_ONES + |words| * BLOCK
    && AllOnes(FrameAt(x, |words|)[..SYNC_ONES])
    && Unblock(FrameAt(x, |words|)[SYNC_ONES..]) == Some(words)
  }

  lemma SyncAndBlocks(w: Bits, words: seq<Bits>)
    requires forall v :: v in words ==> |v| == WORD
    ensures EndsIn(w + (Run(true, SYNC_ONES) + Blocks(words)), words)
  {
    hide Blocks, Unblock;
    BlocksUnblock(words);
    var x := w + (Run(true, SYNC_ONES) + Blocks(words));
    assert |x| == |w| + SYNC_ONES + |words| * BLOCK;
    assert FrameAt(x, |words|) == Run(true, SYNC_ONES) + Blocks(words);
    assert (Run(true, SYNC_ONES) + Blocks(words))[..SYNC_ONES] == Run(true, SYNC_ONES);
    assert (Run(true, SYNC_ONES) + Blocks(words))[SYNC_ONES..] == Blocks(words);
  }

  lemma PrefixBlocks(w: Bits, mp: Mp, n: nat)
    requires 1 <= n <= |Checked(mp)|
    ensures SYNC_ONES + BLOCK * n <= |Body(mp)|
    ensures EndsIn(w + Body(mp)[..SYNC_ONES + BLOCK * n], Checked(mp)[..n])
  {
    hide Checked, Blocks, Body, EndsIn;
    BodyPrefix(mp, n);
    assert forall v :: v in Checked(mp)[..n] ==> v in Checked(mp);
    SyncAndBlocks(w, Checked(mp)[..n]);
  }

  lemma EndsAre(x: Bits, words: seq<Bits>)
    requires EndsIn(x, words) && words != []
    ensures WordsAtEnd(x, |words|)
      == if Crc(FCS_INIT, Flatten(words)) == 0 then Some(words[..|words| - 1]) else None
  {
    hide Unblock, AllOnes, Crc, Flatten;
  }

  lemma NotAtOther(w: Bits, mp: Mp, n: nat, count: nat)
    requires Quiet(w) && n <= |Body(mp)| && count >= 1 && n != SYNC_ONES + count * BLOCK
    ensures WordsAtEnd(w + Body(mp)[..n], count) == None
  {
    hide WordsAtEnd, Shaped, Body, Quiet;
    PrefixIsShaped(w, mp, n);
    if WordsAtEnd(w + Body(mp)[..n], count).Some? {
      FoundIsSync(w + Body(mp)[..n], |w|, count);
    }
  }

  /** The type bit keeps the start of a longer frame from passing for a shorter one. */
  lemma NotShort(w: Bits, mp: Mp)
    requires WellFormed(mp) && mp.precoding.Some?
    ensures SYNC_ONES + BLOCK * TYPE_0_WORDS <= |Body(mp)|
    ensures MpAtEnd(w + Body(mp)[..SYNC_ONES + BLOCK * TYPE_0_WORDS], TYPE_0_WORDS) == None
  {
    hide FirstWord, Checked, WordsAtEnd, EndsIn, FromWords, Body;
    BodyLength(mp);
    PrefixBlocks(w, mp, TYPE_0_WORDS);
    EndsAre(w + Body(mp)[..SYNC_ONES + BLOCK * TYPE_0_WORDS], Checked(mp)[..TYPE_0_WORDS]);
    FirstIsFirst(mp);
    FirstWordInverts(mp);
  }

  lemma FirstIsFirst(mp: Mp)
    requires WellFormed(mp)
    ensures |Checked(mp)| >= 4 && Checked(mp)[..TYPE_0_WORDS][..TYPE_0_WORDS - 1][0] == FirstWord(mp)
  {
    hide FirstWord, SecondWord, TapWords, Crc, Flatten;
    WordCount(mp);
  }

  /** Before a frame is whole, nothing is found in it. */
  lemma NothingYet(w: Bits, mp: Mp, n: nat)
    requires WellFormed(mp) && Quiet(w) && n < |Body(mp)|
    ensures MpIn(w + Body(mp)[..n]) == None
  {
    hide WordsAtEnd, Body, Quiet, FromWords, Checked;
    BodyLength(mp);
    if n == SYNC_ONES + BLOCK * TYPE_0_WORDS {
      NotShort(w, mp);
    } else {
      NotAtOther(w, mp, n, TYPE_0_WORDS);
    }
    NotAtOther(w, mp, n, TYPE_1_WORDS);
  }

  lemma WholeAtEnd(w: Bits, mp: Mp)
    requires WellFormed(mp)
    ensures WordsAtEnd(w + Body(mp), |Checked(mp)|) == Some(Words(mp))
  {
    hide Words, WordsAtEnd, EndsIn, Body;
    var words := Checked(mp);
    BodyLength(mp);
    PrefixBlocks(w, mp, |words|);
    assert Body(mp)[..|Body(mp)|] == Body(mp) && words[..|words|] == words;
    EndsAre(w + Body(mp), words);
    CheckedPasses(mp);
    assert words[..|words| - 1] == Words(mp);
  }

  /** When it is whole, it is found as it was sent. */
  lemma FoundWhole(w: Bits, mp: Mp)
    requires WellFormed(mp) && Quiet(w)
    ensures MpIn(w + Body(mp)) == Some(mp)
  {
    hide WordsAtEnd, Quiet, FromWords, Body, Words;
    BodyLength(mp);
    WholeAtEnd(w, mp);
    WordsInvert(mp);
    if mp.precoding.Some? {
      assert Body(mp)[..|Body(mp)|] == Body(mp);
      NotAtOther(w, mp, |Body(mp)|, TYPE_0_WORDS);
    }
  }

  // The deframer.

  lemma WindowSuffices(x: Bits, count: nat)
    requires 1 <= count <= TYPE_1_WORDS
    ensures WordsAtEnd(Newest(x), count) == WordsAtEnd(x, count)
  {
    hide Unblock, Crc, Flatten;
    var length := SYNC_ONES + count * BLOCK;
    if |x| > LONGEST {
      assert Newest(x)[LONGEST - length..] == x[|x| - length..];
    }
  }

  lemma MpInWindow(x: Bits)
    ensures MpIn(Newest(x)) == MpIn(x)
  {
    hide WordsAtEnd, FromWords;
    WindowSuffices(x, TYPE_0_WORDS);
    WindowSuffices(x, TYPE_1_WORDS);
  }

  lemma NewestAdds(x: Bits, bit: bool)
    ensures Newest(Newest(x) + [bit]) == Newest(x + [bit])
  {
  }

  lemma {:induction false} HearsPrefix(d: Deframer, mp: Mp, n: nat)
    requires WellFormed(mp) && Quiet(d.window) && n < |Body(mp)|
    ensures var e := Hear(d, Body(mp)[..n]);
      e.window == Newest(d.window + Body(mp)[..n]) && e.found == d.found
    decreases n
  {
    hide MpIn, Body, Newest;
    if n == 0 {
      QuietFits(d.window);
      assert d.window + Body(mp)[..0] == d.window;
    } else {
      var before, bit := Body(mp)[..n - 1], Body(mp)[n - 1];
      HearsPrefix(d, mp, n - 1);
      assert Body(mp)[..n][..n - 1] == before;
      assert d.window + before + [bit] == d.window + Body(mp)[..n];
      NewestAdds(d.window + before, bit);
      MpInWindow(d.window + Body(mp)[..n]);
      NothingYet(d.window, mp, n);
    }
  }

  lemma QuietFits(w: Bits)
    requires Quiet(w)
    ensures Newest(w) == w
  {
  }

  lemma HearsBody(d: Deframer, mp: Mp)
    requires WellFormed(mp) && Quiet(d.window)
    ensures var e := Hear(d, Body(mp)); e.window == [] && e.found == d.found + [mp]
  {
    hide MpIn, Newest, Body, Checked;
    BodyLength(mp);
    var n := |Body(mp)| - 1;
    var before, bit := Body(mp)[..n], Body(mp)[n];
    HearsPrefix(d, mp, n);
    assert d.window + before + [bit] == d.window + Body(mp);
    NewestAdds(d.window + before, bit);
    MpInWindow(d.window + Body(mp));
    FoundWhole(d.window, mp);
  }

  lemma TooFewBits(x: Bits)
    requires |x| <= 3
    ensures MpIn(x) == None && Newest(x) == x
  {
  }

  lemma {:induction false} HearsFill(d: Deframer, n: nat)
    requires d.window == [] && n <= 3
    ensures Hear(d, Run(false, n)).window == Run(false, n) && Hear(d, Run(false, n)).found == d.found
  {
    hide MpIn, Newest;
    TooFewBits(Run(false, n));
    if n > 0 {
      HearsFill(d, n - 1);
      assert Run(false, n)[..n - 1] == Run(false, n - 1);
      assert Run(false, n - 1) + [false] == Run(false, n);
    }
  }

  lemma HearsFrame(d: Deframer, mp: Mp)
    requires WellFormed(mp) && Quiet(d.window)
    ensures var e := Hear(d, Frame(mp)); Quiet(e.window) && e.found == d.found + [mp]
  {
    hide Hear, Body;
    HearAppends(d, Body(mp), Run(false, FillBits(mp)));
    HearsBody(d, mp);
    HearsFill(Hear(d, Body(mp)), FillBits(mp));
  }

  lemma OnesAreQuiet(n: nat)
    ensures MpIn(Run(true, n)) == None
  {
    hide FromWords;
  }

  lemma {:induction false} HearsOnes(d: Deframer, n: nat)
    requires d.window == []
    ensures var e := Hear(d, Run(true, n)); e.window == Newest(Run(true, n)) && e.found == d.found
  {
    hide MpIn, Newest;
    if n == 0 {
      QuietFits([]);
    } else {
      HearsOnes(d, n - 1);
      assert Run(true, n)[..n - 1] == Run(true, n - 1);
      assert Run(true, n - 1) + [true] == Run(true, n);
      NewestAdds(Run(true, n - 1), true);
      MpInWindow(Run(true, n));
      OnesAreQuiet(n);
    }
  }

  function Frames(mps: seq<Mp>): Bits {
    if mps == [] then [] else Frame(mps[0]) + Frames(mps[1..])
  }

  lemma {:induction false} HearsFrames(d: Deframer, mps: seq<Mp>)
    requires Quiet(d.window) && forall mp :: mp in mps ==> WellFormed(mp)
    ensures Hear(d, Frames(mps)).found == d.found + mps
    decreases |mps|
  {
    hide Frame, Push, Quiet, WellFormed;
    if mps != [] {
      assert mps[0] in mps;
      assert forall mp :: mp in mps[1..] ==> mp in mps;
      HearsFrame(d, mps[0]);
      HearAppends(d, Frame(mps[0]), Frames(mps[1..]));
      HearsFrames(Hear(d, Frame(mps[0])), mps[1..]);
    }
  }

  /** After any number of 1s, MP sequences of either type are found exactly as they were sent, and nothing else is. */
  lemma SequencesAreFound(n: nat, mps: seq<Mp>)
    requires forall mp :: mp in mps ==> WellFormed(mp)
    ensures Hear(Deframer([], 0, []), Run(true, n) + Frames(mps)).found == mps
  {
    hide Hear, Frames, WellFormed;
    var d := Deframer([], 0, []);
    HearAppends(d, Run(true, n), Frames(mps));
    HearsOnes(d, n);
    HearsFrames(Hear(d, Run(true, n)), mps);
  }
}
