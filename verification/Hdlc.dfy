/** The line between two HDLC ends as bits: stuffing, flags, aborts, and which frames survive (section 8.1 of V.42). */
module Hdlc {
  import opened Prelude
  import opened BitField
  import opened Fcs

  const FLAG_BITS: Bits := [false, true, true, true, true, true, true, false]
  const FCS_LEN := 2
  /** Past this a frame is unbounded. */
  const MAX_BITS := 8 * 4200
  /** The longest frame that comes through. */
  const MAX_FRAME := 4197

  lemma FieldStep(v: nat, n: nat)
    ensures FieldBits(v, n + 1) == [v % 2 == 1] + FieldBits(v / 2, n)
  {
  }

  lemma FieldEnds(v: nat)
    ensures FieldBits(v, 0) == []
  {
  }

  lemma FlagBitsAre()
    ensures OctetBits(0x7e) == FLAG_BITS
  {
    hide FieldBits;
    FieldStep(0x7e, 7);
    FieldStep(63, 6);
    FieldStep(31, 5);
    FieldStep(15, 4);
    FieldStep(7, 3);
    FieldStep(3, 2);
    FieldStep(1, 1);
    FieldStep(0, 0);
    FieldEnds(0);
  }

  // Sending.

  /** A 0 after every five 1s, when `ones` have just been sent. */
  function Stuff(bits: Bits, ones: nat): Bits {
    if bits == [] then []
    else if !bits[0] then [false] + Stuff(bits[1..], 0)
    else if ones + 1 == 5 then [true, false] + Stuff(bits[1..], 0)
    else [true] + Stuff(bits[1..], ones + 1)
  }

  function Content(frame: Octets): Bits {
    BitsOf(frame + Fcs16(frame))
  }

  /** What the framer puts on the line for one frame. */
  function FrameBits(frame: Octets): Bits {
    Stuff(Content(frame), 0) + FLAG_BITS
  }

  // Receiving.

  /** The deframer's fields, with what it has found so far. */
  datatype Deframer = Deframer(
    minContent: nat,
    bits: Bits,
    ones: nat,
    open: bool,
    flagsInARow: nat,
    badFrames: nat,
    found: seq<Octets>)

  function New(minContent: nat): Deframer {
    Deframer(minContent, [], 0, false, 0, 0, [])
  }

  function Checked(bits: Bits, minContent: nat): Option<Octets> {
    if |bits| % 8 != 0 || |bits| / 8 < minContent + FCS_LEN then None
    else
      var bytes := OctetsOf(bits);
      if Crc(FCS_INIT, BitsOf(bytes)) != FCS_GOOD then None else Some(bytes[..|bytes| - FCS_LEN])
  }

  function Abort(d: Deframer): Deframer {
    d.(open := false, bits := [], flagsInARow := 0)
  }

  /** The content between two flags, less the seven bits of the second that were still taken for data. */
  function Between(d: Deframer): Bits {
    if |d.bits| < 7 then [] else d.bits[..|d.bits| - 7]
  }

  function Flag(d: Deframer): Deframer {
    var idle := d.(open := true, bits := []);
    if !d.open || Between(d) == [] then idle.(flagsInARow := d.flagsInARow + 1)
    else
      match Checked(Between(d), d.minContent)
      case None => idle.(flagsInARow := 0, badFrames := d.badFrames + 1)
      case Some(frame) => idle.(flagsInARow := 0, found := d.found + [frame])
  }

  function One(d: Deframer): Deframer {
    var ones := Min(d.ones + 1, 255);
    if ones == 7 then Abort(d.(ones := ones))
    else if d.open && ones < 7 then d.(ones := ones, bits := d.bits + [true])
    else d.(ones := ones)
  }

  function Zero(d: Deframer): Deframer {
    var taken := d.(ones := 0);
    if d.ones == 5 then taken
    else if d.ones == 6 then Flag(taken)
    else if !d.open then taken
    else if |d.bits| + 1 > MAX_BITS then Abort(taken)
    else taken.(bits := d.bits + [false])
  }

  function Push(d: Deframer, bit: bool): Deframer {
    if bit then One(d) else Zero(d)
  }

  function Run(d: Deframer, bits: Bits): Deframer
    decreases |bits|
  {
    if bits == [] then d else Run(Push(d, bits[0]), bits[1..])
  }

  lemma {:induction false} RunAppends(d: Deframer, a: Bits, b: Bits)
    ensures Run(d, a + b) == Run(Run(d, a), b)
    decreases |a|
  {
    hide Push;
    if a == [] {
      assert a + b == b;
    } else {
      RunAppends(Push(d, a[0]), a[1..], b);
      assert (a + b)[1..] == a[1..] + b;
    }
  }

  /** Just after a flag. */
  predicate Opened(d: Deframer) {
    d.open && d.bits == [] && d.ones == 0
  }

  lemma RunFlag(d: Deframer)
    ensures Run(d, FLAG_BITS) == Zero(One(One(One(One(One(One(Zero(d))))))))
  {
    hide Zero, One;
    RunAppends(d, [false, true, true, true], [true, true, true, false]);
    var e := Run(d, [false, true, true, true]);
    assert e == One(One(One(Zero(d))));
    assert Run(e, [true, true, true, false]) == Zero(One(One(One(e))));
    assert FLAG_BITS == [false, true, true, true] + [true, true, true, false];
  }

  /** Six 1s in the middle of a frame. */
  lemma SixOnes(d: Deframer)
    requires d.ones == 0
    ensures One(One(One(One(One(One(d))))))
      == d.(ones := 6, bits := if d.open then d.bits + [true, true, true, true, true, true] else d.bits)
  {
    hide Abort;
  }

  /** Whatever came before it, one flag sets the deframer straight. */
  lemma FlagOpens(d: Deframer)
    ensures Opened(Run(d, FLAG_BITS))
  {
    hide Checked, Between, Run;
    RunFlag(d);
    var z := Zero(d);
    assert z.ones == 0;
    SixOnes(z);
  }

  lemma FillRuns(d: Deframer)
    requires Opened(d)
    ensures Run(d, FLAG_BITS) == d.(flagsInARow := d.flagsInARow + 1)
  {
    hide Checked, Run;
    RunFlag(d);
    SixOnes(Zero(d));
  }

  /** What a flag makes of a frame's content since the last one. */
  function Close(d: Deframer, content: Bits): Deframer {
    var closed := d.(bits := [], ones := 0, open := true);
    if |content| >= MAX_BITS then closed.(flagsInARow := 1)
    else
      match Checked(content, d.minContent)
      case None => closed.(flagsInARow := 0, badFrames := d.badFrames + 1)
      case Some(frame) => closed.(flagsInARow := 0, found := d.found + [frame])
  }

  /** The deframer holds all that came since `d`, or gave up because it was too much. */
  predicate Holds(d: Deframer, content: Bits, e: Deframer) {
    && e.ones < 5
    && if e.open then e == d.(bits := content, ones := e.ones)
       else |content| > MAX_BITS && e == Abort(d).(ones := e.ones)
  }

  lemma HoldsZero(d: Deframer, content: Bits, e: Deframer)
    requires Holds(d, content, e)
    ensures Holds(d, content + [false], Zero(e)) && Zero(e).ones == 0
  {
  }

  lemma HoldsOne(d: Deframer, content: Bits, e: Deframer)
    requires Holds(d, content, e)
    ensures e.ones < 4 ==> Holds(d, content + [true], One(e)) && One(e).ones == e.ones + 1
    ensures e.ones == 4 ==> Holds(d, content + [true], Zero(One(e))) && Zero(One(e)).ones == 0
  {
  }

  /** Taking the inserted 0s out again leaves the content. */
  lemma {:induction false} Unstuffs(d: Deframer, done: Bits, e: Deframer, rest: Bits)
    requires Holds(d, done, e)
    ensures Holds(d, done + rest, Run(e, Stuff(rest, e.ones)))
    decreases |rest|
  {
    hide Holds, Zero, One;
    if rest == [] {
      assert done + rest == done;
    } else {
      var stuffed := Stuff(rest[1..], if !rest[0] || e.ones == 4 then 0 else e.ones + 1);
      assert e.ones < 5 by { HoldsOnes(d, done, e); }
      assert done + rest == done + [rest[0]] + rest[1..];
      if !rest[0] {
        HoldsZero(d, done, e);
        RunAppends(e, [false], stuffed);
        Unstuffs(d, done + [false], Zero(e), rest[1..]);
      } else {
        HoldsOne(d, done, e);
        if e.ones == 4 {
          RunAppends(e, [true, false], stuffed);
          assert Run(e, [true, false]) == Zero(One(e));
          Unstuffs(d, done + [true], Zero(One(e)), rest[1..]);
        } else {
          RunAppends(e, [true], stuffed);
          Unstuffs(d, done + [true], One(e), rest[1..]);
        }
      }
    }
  }

  lemma HoldsOnes(d: Deframer, content: Bits, e: Deframer)
    requires Holds(d, content, e)
    ensures e.ones < 5
  {
  }

  lemma FlagCloses(d: Deframer, content: Bits, e: Deframer)
    requires Opened(d) && content != [] && Holds(d, content, e)
    ensures Run(e, FLAG_BITS) == Close(d, content)
  {
    hide Checked, Run;
    RunFlag(e);
    var z := Zero(e);
    SixOnes(z);
    if z.open {
      var six := [true, true, true, true, true, true];
      assert z.bits == content + [false];
      assert (content + [false] + six)[..|content|] == content;
    }
  }

  /** Whatever is sent between flags is heard whole, and checked. */
  lemma ContentRuns(d: Deframer, content: Bits)
    requires Opened(d) && content != []
    ensures Run(d, Stuff(content, 0) + FLAG_BITS) == Close(d, content)
  {
    hide Run, Close, Stuff;
    RunAppends(d, Stuff(content, 0), FLAG_BITS);
    assert Holds(d, [], d);
    Unstuffs(d, [], d, content);
    assert [] + content == content;
    FlagCloses(d, content, Run(d, Stuff(content, 0)));
  }

  /** The check passes a whole frame, unless it is too short. */
  lemma ChecksContent(frame: Octets, minContent: nat)
    ensures Checked(Content(frame), minContent) == if |frame| < minContent then None else Some(frame)
  {
    hide Crc, Fcs16, BitsOf, OctetsOf;
    OctetsInvert(frame + Fcs16(frame));
    FramePasses(frame);
    assert (frame + Fcs16(frame))[..|frame|] == frame;
  }

  /** What becomes of a frame by its length alone: kept, counted as bad, or dropped without being counted. */
  lemma FrameRuns(d: Deframer, frame: Octets)
    requires Opened(d)
    ensures Run(d, FrameBits(frame)) ==
      if |frame| > MAX_FRAME then d.(flagsInARow := 1)
      else if |frame| < d.minContent then d.(flagsInARow := 0, badFrames := d.badFrames + 1)
      else d.(flagsInARow := 0, found := d.found + [frame])
  {
    hide Run, Stuff, Checked, BitsOf, Fcs16;
    ContentRuns(d, Content(frame));
    ChecksContent(frame, d.minContent);
  }

  /** What goes down the line after an opening flag. */
  datatype Item = Fill | Sent(frame: Octets)

  function ItemBits(item: Item): Bits {
    match item
    case Fill => FLAG_BITS
    case Sent(frame) => FrameBits(frame)
  }

  function LineBits(items: seq<Item>): Bits {
    if items == [] then [] else ItemBits(items[0]) + LineBits(items[1..])
  }

  predicate Arrives(minContent: nat, frame: Octets) {
    minContent <= |frame| <= MAX_FRAME
  }

  function Kept(minContent: nat, items: seq<Item>): seq<Octets> {
    if items == [] then []
    else
      (if items[0].Sent? && Arrives(minContent, items[0].frame) then [items[0].frame] else [])
      + Kept(minContent, items[1..])
  }

  function TooShort(minContent: nat, items: seq<Item>): nat {
    if items == [] then 0
    else
      (if items[0].Sent? && |items[0].frame| < minContent <= MAX_FRAME then 1 else 0)
      + TooShort(minContent, items[1..])
  }

  lemma ItemRuns(d: Deframer, item: Item)
    requires Opened(d) && d.minContent <= MAX_FRAME
    ensures var e := Run(d, ItemBits(item));
      && Opened(e)
      && e.minContent == d.minContent
      && e.found == d.found + Kept(d.minContent, [item])
      && e.badFrames == d.badFrames + TooShort(d.minContent, [item])
  {
    hide Run, FrameBits;
    match item
    case Fill => FillRuns(d);
    case Sent(frame) => FrameRuns(d, frame);
  }

  lemma {:induction false} LineRuns(d: Deframer, items: seq<Item>)
    requires Opened(d) && d.minContent <= MAX_FRAME
    ensures var e := Run(d, LineBits(items));
      && Opened(e)
      && e.found == d.found + Kept(d.minContent, items)
      && e.badFrames == d.badFrames + TooShort(d.minContent, items)
    decreases |items|
  {
    hide Run, ItemBits, Arrives;
    if items == [] {
      RunNothing(d);
    } else {
      KeptSteps(d.minContent, items);
      var e := Run(d, ItemBits(items[0]));
      Associates(d.found, Kept(d.minContent, [items[0]]), Kept(d.minContent, items[1..]));
      ItemRuns(d, items[0]);
      RunAppends(d, ItemBits(items[0]), LineBits(items[1..]));
      LineRuns(e, items[1..]);
    }
  }

  lemma KeptSteps(minContent: nat, items: seq<Item>)
    requires items != []
    ensures Kept(minContent, items) == Kept(minContent, [items[0]]) + Kept(minContent, items[1..])
    ensures TooShort(minContent, items) == TooShort(minContent, [items[0]]) + TooShort(minContent, items[1..])
  {
    assert [items[0]][1..] == [];
  }

  lemma RunNothing(d: Deframer)
    ensures Run(d, []) == d
  {
  }

  /** After any bits at all one flag suffices: what follows is found exactly, in order, and nothing else is. */
  lemma FramesSurvive(minContent: nat, history: Bits, items: seq<Item>)
    requires minContent <= MAX_FRAME
    ensures var before := Run(New(minContent), history + FLAG_BITS);
      var after := Run(New(minContent), history + FLAG_BITS + LineBits(items));
      && after.found == before.found + Kept(minContent, items)
      && after.badFrames == before.badFrames + TooShort(minContent, items)
  {
    hide Run, LineBits;
    var d := Run(New(minContent), history);
    RunAppends(New(minContent), history, FLAG_BITS);
    RunAppends(New(minContent), history + FLAG_BITS, LineBits(items));
    FlagOpens(d);
    MinContentStays(New(minContent), history + FLAG_BITS);
    LineRuns(Run(New(minContent), history + FLAG_BITS), items);
  }

  lemma PushKeepsMin(d: Deframer, bit: bool)
    ensures Push(d, bit).minContent == d.minContent
  {
    hide Checked;
  }

  lemma {:induction false} MinContentStays(d: Deframer, bits: Bits)
    ensures Run(d, bits).minContent == d.minContent
    decreases |bits|
  {
    hide Push;
    if bits != [] {
      PushKeepsMin(d, bits[0]);
      MinContentStays(Push(d, bits[0]), bits[1..]);
    }
  }

  /** Any change within 16 consecutive bits of a frame's content has it dropped and counted. */
  lemma BurstIsDropped(d: Deframer, frame: Octets, before: Bits, burst: Bits, changed: Bits, after: Bits)
    requires Opened(d) && |frame| <= MAX_FRAME
    requires Content(frame) == before + burst + after
    requires |burst| == |changed| <= 16 && burst != changed
    ensures Run(d, Stuff(before + changed + after, 0) + FLAG_BITS)
      == d.(flagsInARow := 0, badFrames := d.badFrames + 1)
  {
    hide Run, Stuff, Crc, BitsOf, OctetsOf, Fcs16;
    var content := before + changed + after;
    FramePasses(frame);
    BurstIsCaught(before, burst, changed, after);
    BitsOfInvert(content);
    ContentRuns(d, content);
  }

  /** No six 1s in a row, so no flag and no abort, in what is sent between flags. */
  predicate NoFlagIn(bits: Bits, ones: nat)
    decreases |bits|
  {
    if bits == [] then true
    else if bits[0] then ones < 5 && NoFlagIn(bits[1..], ones + 1)
    else NoFlagIn(bits[1..], 0)
  }

  lemma {:induction false} StuffedHasNoFlag(bits: Bits, ones: nat)
    requires ones < 5
    ensures NoFlagIn(Stuff(bits, ones), ones)
    decreases |bits|
  {
    if bits != [] {
      var next := if !bits[0] || ones == 4 then 0 else ones + 1;
      StuffedHasNoFlag(bits[1..], next);
      var stuffed := Stuff(bits[1..], next);
      if bits[0] && ones == 4 {
        assert Stuff(bits, ones)[1..] == [false] + stuffed;
        assert ([false] + stuffed)[1..] == stuffed;
      } else {
        assert Stuff(bits, ones)[1..] == stuffed;
      }
    }
  }
}
