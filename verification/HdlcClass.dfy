/** The bit-by-bit framer and deframer, against the functions of `Hdlc`. */
module HdlcClass {
  import opened Prelude
  import opened BitField
  import opened Fcs
  import Hdlc
  import LapmFrame

  method PushFlag(line: Bits) returns (out: Bits)
    ensures out == line + Hdlc.FLAG_BITS
  {
    hide FieldBits;
    out := line;
    var flag: Octet := 0x7e;
    Hdlc.FlagBitsAre();
    for i := 0 to 8
      invariant |OctetBits(0x7e)| == 8
      invariant out + FieldBits(flag, 8 - i) == line + OctetBits(0x7e)
    {
      Hdlc.FieldStep(flag, 7 - i);
      assert out + ([flag % 2 == 1] + FieldBits(flag / 2, 7 - i)) == out + [flag % 2 == 1] + FieldBits(flag / 2, 7 - i);
      out := out + [flag % 2 == 1];
      flag := flag / 2;
    }
  }

  /** The 0s after every five 1s, put in one bit at a time. */
  method PushFrame(frame: Octets, line: Bits) returns (out: Bits)
    ensures out == line + Hdlc.FrameBits(frame)
  {
    hide Hdlc.Stuff, Crc, WordBits, BitsOf, OctetsOf;
    var register := FcsUpdate(FCS_INIT, frame);
    var bytes := frame + OctetsOf(WordBits(Complement(register), 16));
    var content := BitsOf(bytes);
    out := line;
    var ones: nat := 0;
    for i := 0 to |content|
      invariant ones < 5
      invariant out + Hdlc.Stuff(content[i..], ones) == line + Hdlc.Stuff(content, 0)
    {
      StuffsNext(content, i, ones);
      ghost var was := out;
      var bit := content[i];
      out := out + [bit];
      ones := if bit then ones + 1 else 0;
      if ones == 5 {
        out := out + [false];
        ones := 0;
        assert was + ([true, false] + Hdlc.Stuff(content[i + 1..], 0))
            == was + [true] + [false] + Hdlc.Stuff(content[i + 1..], 0);
      }
    }
    assert content[|content|..] == [];
    StuffsNothing(ones);
    assert out == line + Hdlc.Stuff(content, 0);
    ghost var body := out;
    out := PushFlag(out);
    assert body + Hdlc.FLAG_BITS == line + (Hdlc.Stuff(content, 0) + Hdlc.FLAG_BITS);
  }

  lemma StuffsNothing(ones: nat)
    ensures Hdlc.Stuff([], ones) == []
  {
  }

  lemma StuffsNext(content: Bits, i: nat, ones: nat)
    requires i < |content| && ones < 5
    ensures Hdlc.Stuff(content[i..], ones) ==
      if !content[i] then [false] + Hdlc.Stuff(content[i + 1..], 0)
      else if ones == 4 then [true, false] + Hdlc.Stuff(content[i + 1..], 0)
      else [true] + Hdlc.Stuff(content[i + 1..], ones + 1)
  {
    assert content[i..][1..] == content[i + 1..];
  }

  /** The deframer of `Hdlc` with its state in fields; `found` is every frame it has given. */
  class Deframer {
    const minContent: nat
    var bits: Bits
    var ones: nat
    var open: bool
    var flagsInARow: nat
    var badFrames: nat
    /** Every frame returned so far. */
    ghost var found: seq<Octets>

    ghost function View(): Hdlc.Deframer
      reads this
    {
      Hdlc.Deframer(minContent, bits, ones, open, flagsInARow, badFrames, found)
    }

    constructor (minContent: nat)
      ensures View() == Hdlc.New(minContent)
    {
      this.minContent := minContent;
      bits, ones, open, flagsInARow, badFrames, found := [], 0, false, 0, 0, [];
    }

    /** The state that `Hdlc.Push` gives, and the frame that it adds to those found, if it adds one. */
    method Push(bit: bool) returns (frame: Option<Octets>)
      modifies this
      ensures View() == Hdlc.Push(old(View()), bit)
      ensures found == old(found) + (if frame.Some? then [frame.value] else [])
    {
      hide Hdlc.Checked;
      frame := None;
      if bit {
        ones := Min(ones + 1, 255);
        if ones == 7 {
          Abort();
        } else if open && ones < 7 {
          bits := bits + [true];
        }
        return;
      }
      var taken := ones;
      ones := 0;
      if taken == 6 {
        frame := Flag();
      } else if taken != 5 && open {
        bits := bits + [false];
        if |bits| > Hdlc.MAX_BITS {
          Abort();
        }
      }
    }

    method Abort()
      modifies this
      ensures View() == Hdlc.Abort(old(View()))
    {
      open, bits, flagsInARow := false, [], 0;
    }

    method Flag() returns (frame: Option<Octets>)
      modifies this
      ensures View() == Hdlc.Flag(old(View()))
      ensures found == old(found) + (if frame.Some? then [frame.value] else [])
    {
      hide Hdlc.Checked;
      frame := None;
      var wasOpen := open;
      open := true;
      var content := if |bits| < 7 then 0 else |bits| - 7;
      var between := bits[..content];
      bits := [];
      if !wasOpen || content == 0 {
        flagsInARow := flagsInARow + 1;
        return;
      }
      flagsInARow := 0;
      frame := Checked(between, minContent);
      if frame.None? {
        badFrames := badFrames + 1;
      } else {
        found := found + [frame.value];
      }
    }
  }

  /** The octets between two flags without their FCS, if it is good. */
  method Checked(bits: Bits, minContent: nat) returns (frame: Option<Octets>)
    ensures frame == Hdlc.Checked(bits, minContent)
  {
    hide OctetsOf, Crc, BitsOf;
    if |bits| % 8 != 0 || |bits| / 8 < minContent + Hdlc.FCS_LEN {
      return None;
    }
    var bytes := OctetsOf(bits);
    var register := FcsUpdate(FCS_INIT, bytes);
    if register != FCS_GOOD {
      return None;
    }
    frame := Some(bytes[..|bytes| - Hdlc.FCS_LEN]);
  }

  // LAPM frames on the line.

  /** Frames as items of the line, with a flag more wherever there is none. */
  function Carried(frames: seq<Option<LapmFrame.Frame>>): (items: seq<Hdlc.Item>)
    ensures |items| == |frames|
  {
    if frames == [] then []
    else
      [if frames[0].None? then Hdlc.Fill else Hdlc.Sent(LapmFrame.Bytes(frames[0].value))] + Carried(frames[1..])
  }

  function ParseAll(found: seq<Octets>): seq<LapmFrame.Parsed> {
    if found == [] then [] else [LapmFrame.Parse(found[0])] + ParseAll(found[1..])
  }

  function Sound(frames: seq<Option<LapmFrame.Frame>>): seq<LapmFrame.Parsed> {
    if frames == [] then []
    else (if frames[0].None? then [] else [LapmFrame.Ok(frames[0].value)]) + Sound(frames[1..])
  }

  /** Smallest address and control field that LAPM takes. */
  const MIN_FRAME := 2

  predicate Sendable(frame: Option<LapmFrame.Frame>) {
    frame.Some? ==> LapmFrame.WellFormed(frame.value) && |LapmFrame.Bytes(frame.value)| <= Hdlc.MAX_FRAME
  }

  /** Well-formed frames of a sendable length are found and read back, every one and in order. */
  lemma {:induction false} LapmFramesArrive(frames: seq<Option<LapmFrame.Frame>>)
    requires forall f :: f in frames ==> Sendable(f)
    ensures ParseAll(Hdlc.Kept(MIN_FRAME, Carried(frames))) == Sound(frames)
    ensures Hdlc.TooShort(MIN_FRAME, Carried(frames)) == 0
  {
    hide LapmFrame.Parse, LapmFrame.Bytes, LapmFrame.WellFormed;
    if frames != [] {
      LapmFramesArrive(frames[1..]);
      var items := Carried(frames);
      var rest := Hdlc.Kept(MIN_FRAME, Carried(frames[1..]));
      assert items[1..] == Carried(frames[1..]);
      assert Sendable(frames[0]);
      if frames[0].Some? {
        var f := frames[0].value;
        LapmFrame.ParsesBytes(f);
        BytesAreLong(f);
        assert Hdlc.Kept(MIN_FRAME, items) == [LapmFrame.Bytes(f)] + rest;
        assert ([LapmFrame.Bytes(f)] + rest)[1..] == rest;
      } else {
        assert Hdlc.Kept(MIN_FRAME, items) == rest;
      }
    }
  }

  lemma BytesAreLong(f: LapmFrame.Frame)
    ensures |LapmFrame.Bytes(f)| >= MIN_FRAME
  {
  }

  /** After any bits at all and one flag, LAPM frames reach the other end as they were sent. */
  lemma LapmSurvives(history: Bits, frames: seq<Option<LapmFrame.Frame>>)
    requires forall f :: f in frames ==> Sendable(f)
    ensures
      var before := Hdlc.Run(Hdlc.New(MIN_FRAME), history + Hdlc.FLAG_BITS);
      var after := Hdlc.Run(Hdlc.New(MIN_FRAME), history + Hdlc.FLAG_BITS + Hdlc.LineBits(Carried(frames)));
      && before.found <= after.found
      && ParseAll(after.found[|before.found|..]) == Sound(frames)
      && after.badFrames == before.badFrames
  {
    hide Hdlc.Run, Hdlc.LineBits, Hdlc.Kept, Hdlc.TooShort, ParseAll, Sound, Carried;
    Hdlc.FramesSurvive(MIN_FRAME, history, Carried(frames));
    LapmFramesArrive(frames);
  }
}
