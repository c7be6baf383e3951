/** Numbers as fields of bits, least significant bit first. */
module BitField {
  import opened Prelude

  type Bits = seq<bool>

  /** The low `n` bits of `v`. */
  function FieldBits(v: nat, n: nat): (bits: Bits)
    ensures |bits| == n
  {
    if n == 0 then [] else [v % 2 == 1] + FieldBits(v / 2, n - 1)
  }

  function FieldOf(bits: Bits): (v: nat)
    ensures v < Pow2(|bits|)
  {
    if bits == [] then 0 else Bit(bits[0]) + 2 * FieldOf(bits[1..])
  }

  lemma {:induction false} FieldInverts(v: nat, n: nat)
    requires v < Pow2(n)
    ensures FieldOf(FieldBits(v, n)) == v
  {
    if n > 0 {
      FieldInverts(v / 2, n - 1);
      assert FieldBits(v, n)[1..] == FieldBits(v / 2, n - 1);
    }
  }

  lemma {:induction false} FieldBitsInvert(bits: Bits)
    ensures FieldBits(FieldOf(bits), |bits|) == bits
  {
    if bits != [] {
      FieldBitsInvert(bits[1..]);
      assert FieldOf(bits) / 2 == FieldOf(bits[1..]) && FieldOf(bits) % 2 == Bit(bits[0]);
    }
  }

  /** The bits of an octet in the order they are sent. */
  function OctetBits(octet: Octet): (bits: Bits)
    ensures |bits| == 8
  {
    FieldBits(octet, 8)
  }

  function OctetOf(bits: Bits): Octet
    requires |bits| == 8
  {
    assert Pow2(8) == 256;
    FieldOf(bits)
  }

  function BitsOf(octets: Octets): (bits: Bits)
    ensures |bits| == 8 * |octets|
  {
    if octets == [] then [] else OctetBits(octets[0]) + BitsOf(octets[1..])
  }

  function OctetsOf(bits: Bits): (octets: Octets)
    requires |bits| % 8 == 0
    ensures |octets| == |bits| / 8
  {
    if bits == [] then [] else [OctetOf(bits[..8])] + OctetsOf(bits[8..])
  }

  lemma OctetInverts(octet: Octet)
    ensures OctetOf(OctetBits(octet)) == octet
  {
    assert Pow2(8) == 256;
    FieldInverts(octet, 8);
  }

  lemma {:induction false} OctetsInvert(octets: Octets)
    ensures OctetsOf(BitsOf(octets)) == octets
  {
    hide OctetOf, OctetBits;
    if octets != [] {
      var bits := BitsOf(octets);
      OctetInverts(octets[0]);
      OctetsInvert(octets[1..]);
      assert bits[..8] == OctetBits(octets[0]) && bits[8..] == BitsOf(octets[1..]);
    }
  }

  lemma BitsInvert(bits: Bits)
    requires |bits| == 8
    ensures OctetBits(OctetOf(bits)) == bits
  {
    FieldBitsInvert(bits);
  }

  lemma {:induction false} BitsOfInvert(bits: Bits)
    requires |bits| % 8 == 0
    ensures BitsOf(OctetsOf(bits)) == bits
  {
    hide OctetOf, OctetBits;
    if bits != [] {
      BitsInvert(bits[..8]);
      BitsOfInvert(bits[8..]);
      assert bits == bits[..8] + bits[8..];
    }
  }

  lemma {:induction false} BitsAppend(a: Octets, b: Octets)
    ensures BitsOf(a + b) == BitsOf(a) + BitsOf(b)
  {
    hide OctetBits;
    if a == [] {
      assert a + b == b;
    } else {
      BitsAppend(a[1..], b);
      assert (a + b)[0] == a[0] && (a + b)[1..] == a[1..] + b;
      assert BitsOf(a + b) == OctetBits(a[0]) + (BitsOf(a[1..]) + BitsOf(b));
    }
  }
}
