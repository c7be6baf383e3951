/** What V.42 bis learns and forgets, told by strings. */
module V42Learning {
  import opened Prelude
  import Arithmetic
  import opened V42Dictionary
  import opened V42bis
  import opened V42Greedy

  /** No slot that the search passes over is free. */
  lemma {:induction false} ScanIsFirst(d: Dict, at: nat, stop: nat, x: nat)
    requires IsSlot(d, at) && IsSlot(d, stop) && IsSlot(d, x)
    requires Distance(d, at, x) < Distance(d, at, Scan(d, at, stop))
    ensures !Free(d, x)
    decreases if at <= stop then stop - at else stop - at + d.parameters.codewords
  {
    hide Free;
    if at != stop && !Free(d, at) && x != at {
      ScanIsFirst(d, After(d, at), stop, x);
    }
  }

  /** Some codeword is that of the string one character longer. */
  ghost predicate Has(d: Dict, node: nat, c: Octet)
    requires Inv(d) && Known(d, node)
  {
    exists t: nat :: Known(d, t) && String(d, t) == String(d, node) + [c]
  }

  lemma HasIsChild(d: Dict, node: nat, c: Octet)
    requires Inv(d) && Known(d, node)
    ensures Has(d, node, c) <==> Child(d, node, c).Some?
  {
    hide Tree, String, Child;
    ChildIs(d, node, c);
    if Has(d, node, c) {
      var t: nat :| Known(d, t) && String(d, t) == String(d, node) + [c];
      LongerIsChild(d, node, t, c);
    }
  }

  lemma ChildIs(d: Dict, node: nat, c: Octet)
    requires Inv(d) && Known(d, node)
    ensures var found := Child(d, node, c);
      if found.Some? then Known(d, found.value) && String(d, found.value) == String(d, node) + [c]
      else forall t: nat :: !HasKey(d, t, node, c)
  {
    var found := Child(d, node, c);
    if found.Some? {
      StringParts(d, found.value);
    }
  }

  /** A slot after C1 and before another, in cyclic order. */
  predicate SkippedOver(d: Dict, x: nat, next: nat)
    requires d.parameters.Valid() && IsSlot(d, d.next) && IsSlot(d, next)
  {
    IsSlot(d, x) && Distance(d, After(d, d.next), x) < Distance(d, After(d, d.next), next)
  }

  /**
   * A string is learnt with one character more exactly if it is not too long already and the longer one is unknown.
   * It gets the codeword that was next, and the only codeword forgotten is the one that is next now: the first after
   * it, in cyclic order, that was empty or that no longer string hangs below.
   */
  lemma Learns(d: Dict, node: nat, c: Octet)
    requires Inv(d) && Known(d, node)
    ensures var (d', made) := Add(d, node, c);
      && (made.Some? <==> |String(d, node)| < d.parameters.maxString && !Has(d, node, c))
      && (made.None? ==> d' == d)
      && Inv(d')
    ensures var (d', made) := Add(d, node, c);
      made.Some? ==>
        var grown := Insert(d, node, c);
        && Known(d', d.next) && String(d', d.next) == String(d, node) + [c]
        && (forall x: nat :: Known(d', x) <==> (Known(d, x) || x == d.next) && x != d'.next)
        && IsSlot(d, d'.next) && d'.next != d.next && Free(grown, d'.next)
        && (forall x: nat :: SkippedOver(d, x, d'.next) ==> !Free(grown, x))
  {
    hide Has, Child, String, Free, Scan, Unambiguous;
    HasIsChild(d, node, c);
    AddKeepsInv(d, node, c);
    var (d', made) := Add(d, node, c);
    if made.Some? {
      var grown := Insert(d, node, c);
      InsertKeepsTree(d, node, c) by {
        assert Child(d, node, c).None?;
      }
      RecoversAnother(grown, d.next);
      StringParts(d', d.next);
      AddKeepsStrings(d, node, c, node);
      forall x: nat | SkippedOver(d, x, d'.next) ensures !Free(grown, x)
      {
        ScanIsFirst(grown, After(grown, d.next), d.next, x);
      }
    }
  }

  // The decoder's width.

  predicate Narrow(d: Dec, parameters: Parameters)
    requires parameters.Valid()
  {
    d.dict.parameters == parameters && d.width <= parameters.MaxBits()
  }

  lemma CodeKeepsNarrow(d: Dec, code: nat, parameters: Parameters)
    requires parameters.Valid() && DecOk(d) && Narrow(d, parameters)
    ensures var r := Decode(d, code); r.status.Fine? ==> Narrow(r.dec, parameters)
  {
    hide Tree, String, Add;
    if STEPUP < code && Known(d.dict, code) && d.previous.Some? && Known(d.dict, d.previous.value) {
      AddKeepsInv(d.dict, d.previous.value, String(d.dict, code)[0]);
    }
  }

  lemma {:induction false} DrainKeepsNarrow(d: Dec, parameters: Parameters)
    requires parameters.Valid() && DecOk(d) && Narrow(d, parameters)
    ensures var r := Drain(d); r.status.Fine? ==> Narrow(r.dec, parameters)
    decreases d.count
  {
    hide Decode, Inv, Arithmetic.Low, Arithmetic.High, BitLength;
    DrainSteps(d);
    if d.compressed && d.count >= d.width {
      var code := Arithmetic.Low(d.bits, d.width);
      var d1 := d.(bits := Arithmetic.High(d.bits, d.width), count := d.count - d.width);
      CodeKeepsNarrow(d1, code, parameters);
      var r := Decode(d1, code);
      if r.status.Fine? {
        DecodeCounts(d1, code);
        DrainKeepsNarrow(r.dec, parameters);
      }
    }
  }

  lemma DecodeCounts(d: Dec, code: nat)
    requires DecOk(d)
    ensures Decode(d, code).dec.count <= d.count
  {
    hide Inv, Add, String;
  }

  lemma HearKeepsNarrow(d: Dec, c: Octet, parameters: Parameters)
    requires parameters.Valid() && DecOk(d) && Narrow(d, parameters)
    ensures Narrow(Hear(d, c).dec, parameters)
  {
    hide Push, Tree;
    if MatcherOk(d.matcher, d.dict) {
      PushKeepsOk(d.matcher, d.dict, c);
    }
  }

  lemma WideEnough(parameters: Parameters)
    requires parameters.Valid()
    ensures FIRST_WIDTH <= parameters.MaxBits()
  {
    assert Pow2(8) == 256;
    BitLengthBounds(parameters.codewords - 1);
    if BitLength(parameters.codewords - 1) < 9 {
      Pow2Grows(BitLength(parameters.codewords - 1), 8);
    }
  }

  lemma StepKeepsNarrow(d: Dec, octet: Octet, parameters: Parameters)
    requires parameters.Valid() && DecOk(d) && Narrow(d, parameters)
    ensures var r := Step(d, octet); r.status.Fine? ==> Narrow(r.dec, parameters)
  {
    hide Drain, Inv, Hear, Arithmetic.Join, BitLength;
    if d.compressed {
      DrainKeepsNarrow(d.(bits := Arithmetic.Join(d.bits, d.count, octet), count := d.count + 8), parameters);
    } else {
      WideEnough(parameters);
      HearKeepsNarrow(d, octet, parameters);
      HearKeepsNarrow(d.(escaped := false), d.escape, parameters);
    }
  }

  lemma {:induction false} AllKeepNarrow(d: Dec, octets: Octets, parameters: Parameters)
    requires parameters.Valid() && DecOk(d) && Narrow(d, parameters)
    ensures var r := DecodeAll(d, octets); r.status.Fine? ==> Narrow(r.dec, parameters)
    decreases |octets|
  {
    hide Step, Inv, Narrow;
    if octets != [] {
      StepKeepsNarrow(d, octets[0], parameters);
      if Step(d, octets[0]).status.Fine? {
        AllKeepNarrow(Step(d, octets[0]).dec, octets[1..], parameters);
      }
    }
  }

  /** No octets, from any sender, widen a decoder's codewords past N1 without an error. */
  lemma NeverTooWide(parameters: Parameters, octets: Octets)
    requires parameters.Valid()
    ensures var r := DecodeAll(NewDec(parameters), octets);
      r.status.Fine? ==> r.dec.width <= parameters.MaxBits() && r.dec.dict.parameters == parameters
  {
    hide Step, Inv, BitLength;
    WideEnough(parameters);
    AllKeepNarrow(NewDec(parameters), octets, parameters);
  }
}
