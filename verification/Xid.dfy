/** XID parameters and their octets: what is written is read back (section 12.2 of V.42). */
module XidField {
  import opened Prelude
  import opened Arithmetic

  const FORMAT: Octet := 0x82
  const PARAMETERS: Octet := 0x80
  const PRIVATE: Octet := 0xf0
  const USER_DATA: Octet := 0xff

  const PARAMETER_SET: Octet := 0
  const P0: Octet := 1
  const P1: Octet := 2
  const P2: Octet := 3
  const V42: Octets := [0x56, 0x34, 0x32]

  const OPTIONAL_FUNCTIONS: Octet := 3
  const N401_TX: Octet := 5
  const N401_RX: Octet := 6
  const K_TX: Octet := 7
  const K_RX: Octet := 8

  /** The bits of the optional functions that writing sets and reading takes away. */
  const REQUIRED_FUNCTIONS := 0x898a

  datatype Compression = Compression(directions: Octet, codewords: Option<Word>, maxString: Option<Octet>)

  datatype Xid = Xid(
    functions: nat,
    n401Tx: Option<Word>,
    n401Rx: Option<Word>,
    kTx: Option<Octet>,
    kRx: Option<Octet>,
    compression: Option<Compression>)

  const DefaultXid := Xid(0, None, None, None, None, None)

  type Parameter = (Octet, Octets)

  function LittleEndian(n: nat): Octets {
    [n % 256, n / 256 % 256, n / 0x1_0000 % 256, n / 0x100_0000 % 256]
  }

  function FromLittleEndian(value: Octets): nat {
    OctetAt(value, 0) + 256 * OctetAt(value, 1) + 0x1_0000 * OctetAt(value, 2) + 0x100_0000 * OctetAt(value, 3)
  }

  function OctetAt(value: Octets, i: nat): nat {
    if i < |value| then value[i] else 0
  }

  function BigEndian(n: nat): Octets {
    [n / 0x100_0000 % 256, n / 0x1_0000 % 256, n / 256 % 256, n % 256]
  }

  /** Without leading zero octets, but at least one octet. */
  function Minimal(value: Octets): (m: Octets)
    requires |value| > 0
    ensures 0 < |m| <= |value|
    decreases |value|
  {
    if value[0] == 0 && |value| > 1 then Minimal(value[1..]) else value
  }

  /** A big-endian number, if it fits in 32 bits. */
  function Number(value: Octets): Option<nat> {
    NumberFrom(0, value)
  }

  function NumberFrom(n: nat, value: Octets): Option<nat>
    decreases |value|
  {
    if value == [] then Some(n)
    else if n * 256 >= 0x1_0000_0000 then None
    else NumberFrom(n * 256 + value[0], value[1..])
  }

  function EncodeParameter(p: Parameter): Octets
    requires |p.1| < 256
  {
    [p.0, |p.1|] + p.1
  }

  predicate Short(ps: seq<Parameter>) {
    forall p :: p in ps ==> |p.1| < 256
  }

  function EncodeParameters(ps: seq<Parameter>): Octets
    requires Short(ps)
  {
    if ps == [] then [] else EncodeParameter(ps[0]) + EncodeParameters(ps[1..])
  }

  function Optional<T>(id: Octet, value: Option<T>, octets: T -> Octets): seq<Parameter> {
    match value
    case None => []
    case Some(v) => [(id, octets(v))]
  }

  function SizeOctets(octets: Word): Octets {
    Minimal(BigEndian(octets * 8))
  }

  function One(k: Octet): Octets {
    [k]
  }

  function Two(n: Word): Octets {
    [n / 256, n % 256]
  }

  function PublicParameters(x: Xid): (ps: seq<Parameter>)
    ensures Short(ps)
  {
    [(OPTIONAL_FUNCTIONS, LittleEndian(BitOr(x.functions, REQUIRED_FUNCTIONS)))]
    + Optional(N401_TX, x.n401Tx, SizeOctets) + Optional(N401_RX, x.n401Rx, SizeOctets)
    + Optional(K_TX, x.kTx, One) + Optional(K_RX, x.kRx, One)
  }

  function PrivateParameters(c: Compression): (ps: seq<Parameter>)
    ensures Short(ps)
  {
    [(PARAMETER_SET, V42), (P0, [c.directions])] + Optional(P1, c.codewords, Two) + Optional(P2, c.maxString, One)
  }

  /** The length takes two octets, and no group here comes near that. */
  function EncodeGroup(id: Octet, group: Octets): Octets {
    var length := if |group| < 0x1_0000 then |group| else 0xffff;
    [id, length / 256, length % 256] + group
  }

  function Bytes(x: Xid): Octets {
    [FORMAT] + EncodeGroup(PARAMETERS, EncodeParameters(PublicParameters(x)))
    + if x.compression.Some? then EncodeGroup(PRIVATE, EncodeParameters(PrivateParameters(x.compression.value))) else []
  }

  // Reading.

  /** A group taken apart, or nothing where a length runs past its end. */
  function ParseParameters(group: Octets): Option<seq<Parameter>>
    decreases |group|
  {
    if |group| < 2 then Some([])
    else if |group| - 2 < group[1] then None
    else
      match ParseParameters(group[2 + group[1]..])
      case None => None
      case Some(rest) => Some([(group[0], group[2..2 + group[1]])] + rest)
  }

  function Size(bits: nat): Word {
    if bits / 8 < 0x1_0000 then bits / 8 else 0xffff
  }

  function Window(k: nat): Octet {
    if k < 256 then k else 255
  }

  function ToWord(n: nat): Word {
    if n < 0x1_0000 then n else 0xffff
  }

  function MapOption<T, R>(o: Option<T>, f: T -> R): Option<R> {
    match o
    case None => None
    case Some(v) => Some(f(v))
  }

  function ReadParameter(x: Xid, p: Parameter): Xid {
    var number := Number(p.1);
    if p.0 == OPTIONAL_FUNCTIONS then
      x.(functions := BitClear(FromLittleEndian(p.1), REQUIRED_FUNCTIONS))
    else if p.0 == N401_TX then x.(n401Tx := MapOption(number, Size))
    else if p.0 == N401_RX then x.(n401Rx := MapOption(number, Size))
    else if p.0 == K_TX then x.(kTx := MapOption(number, Window))
    else if p.0 == K_RX then x.(kRx := MapOption(number, Window))
    else x
  }

  function ReadParameters(x: Xid, ps: seq<Parameter>): Xid
    decreases |ps|
  {
    if ps == [] then x else ReadParameters(ReadParameter(x, ps[0]), ps[1..])
  }

  datatype Private = Private(directions: Option<Octet>, codewords: Option<Word>, maxString: Option<Octet>)

  function ReadPrivateParameter(r: Private, p: Parameter): Private {
    var number := Number(p.1);
    if p.0 == P0 then r.(directions := MapOption(number, (n: nat) => n % 4))
    else if p.0 == P1 then r.(codewords := MapOption(number, ToWord))
    else if p.0 == P2 then r.(maxString := MapOption(number, Window))
    else r
  }

  function ReadPrivateParameters(r: Private, ps: seq<Parameter>): Private
    decreases |ps|
  {
    if ps == [] then r else ReadPrivateParameters(ReadPrivateParameter(r, ps[0]), ps[1..])
  }

  function ReadGroup(x: Xid, id: Octet, group: Octets): Option<Xid> {
    if id != PARAMETERS && id != PRIVATE then Some(x)
    else
      match ParseParameters(group)
      case None => None
      case Some(ps) =>
        if id == PARAMETERS then Some(ReadParameters(x, ps))
        else
          var r := ReadPrivateParameters(Private(None, None, None), ps);
          Some(x.(compression := MapOption(r.directions, (d: Octet) => Compression(d, r.codewords, r.maxString))))
  }

  function ParseGroups(x: Xid, rest: Octets): Option<Xid>
    decreases |rest|
  {
    if rest == [] || rest[0] == USER_DATA then Some(x)
    else if |rest| < 3 then None
    else
      var length: nat := 256 * (rest[1] as int) + rest[2];
      if |rest| - 3 < length then None
      else
        match ReadGroup(x, rest[0], rest[3..3 + length])
        case None => None
        case Some(x') => ParseGroups(x', rest[3 + length..])
  }

  /** The fields that the groups of `info` name, or nothing where they are malformed. */
  function Parse(info: Octets): Option<Xid> {
    if info == [] || info[0] != FORMAT then None else ParseGroups(DefaultXid, info[1..])
  }

  // What is written is read back.

  /** Leading zeros go, all of them and nothing else, but for the last octet. */
  lemma {:induction false} MinimalDropsZeros(value: Octets)
    requires |value| > 0
    ensures var m := Minimal(value);
      && m == value[|value| - |m|..]
      && (forall i :: 0 <= i < |value| - |m| ==> value[i] == 0)
      && (|m| > 1 ==> m[0] != 0)
    decreases |value|
  {
    if value[0] == 0 && |value| > 1 {
      MinimalDropsZeros(value[1..]);
    }
  }

  lemma {:induction false} MinimalKeepsNumber(value: Octets)
    requires |value| > 0
    ensures Number(Minimal(value)) == Number(value)
    decreases |value|
  {
    if value[0] == 0 && |value| > 1 {
      MinimalKeepsNumber(value[1..]);
      assert NumberFrom(0, value) == NumberFrom(0, value[1..]);
    }
  }

  lemma OctetsOf(n: nat)
    requires n < 0x1_0000_0000
    ensures n / 0x100_0000 % 256 == n / 0x100_0000
    ensures n / 0x1_0000 == n / 0x100_0000 * 256 + n / 0x1_0000 % 256
    ensures n / 256 == n / 0x1_0000 * 256 + n / 256 % 256
    ensures n == n / 256 * 256 + n % 256
  {
  }

  lemma LittleEndianInverts(n: nat)
    requires n < 0x1_0000_0000
    ensures FromLittleEndian(LittleEndian(n)) == n
  {
    OctetsOf(n);
    var a, b, c, d := n % 256, n / 256 % 256, n / 0x1_0000 % 256, n / 0x100_0000;
    assert LittleEndian(n) == [a, b, c, d];
    assert n == a + 256 * b + 0x1_0000 * c + 0x100_0000 * d;
  }

  lemma NumberStep(n: nat, value: Octets)
    requires value != [] && n * 256 < 0x1_0000_0000
    ensures NumberFrom(n, value) == NumberFrom(n * 256 + value[0], value[1..])
  {
  }

  lemma BigEndianInverts(n: nat)
    requires n < 0x1_0000_0000
    ensures Number(BigEndian(n)) == Some(n)
  {
    hide NumberFrom;
    var b := BigEndian(n);
    OctetsOf(n);
    assert b[1..] == [b[1], b[2], b[3]];
    assert b[2..] == [b[2], b[3]];
    assert b[3..] == [b[3]];
    assert b[1..][1..] == b[2..] && b[2..][1..] == b[3..] && b[3..][1..] == [];
    NumberStep(0, b);
    NumberStep(n / 0x100_0000, b[1..]);
    NumberStep(n / 0x1_0000, b[2..]);
    NumberStep(n / 256, b[3..]);
    NumberEnds(n);
  }

  lemma NumberEnds(n: nat)
    ensures NumberFrom(n, []) == Some(n)
  {
  }

  lemma ReadsSize(octets: Word)
    ensures MapOption(Number(SizeOctets(octets)), Size) == Some(octets)
  {
    MinimalKeepsNumber(BigEndian(octets * 8));
    BigEndianInverts(octets * 8);
  }

  lemma ReadsOne(k: Octet)
    ensures Number(One(k)) == Some(k)
  {
    assert One(k)[1..] == [];
    NumberStep(0, One(k));
  }

  lemma ReadsTwo(n: Word)
    ensures Number(Two(n)) == Some(n)
  {
    var b := Two(n);
    assert b[1..] == [b[1]];
    assert b[1..][1..] == [];
    assert NumberFrom(0, b) == NumberFrom(b[0], b[1..]);
  }

  lemma {:induction false} ParsesParameters(ps: seq<Parameter>)
    requires Short(ps)
    ensures ParseParameters(EncodeParameters(ps)) == Some(ps)
  {
    if ps != [] {
      var p, rest := ps[0], EncodeParameters(ps[1..]);
      var group := EncodeParameters(ps);
      ParsesParameters(ps[1..]);
      assert group == [p.0, |p.1|] + p.1 + rest;
      assert group[2..2 + |p.1|] == p.1;
      assert group[2 + |p.1|..] == rest;
      assert ps == [p] + ps[1..];
    }
  }

  lemma {:induction false} ReadsInParts(x: Xid, a: seq<Parameter>, b: seq<Parameter>)
    ensures ReadParameters(x, a + b) == ReadParameters(ReadParameters(x, a), b)
    decreases |a|
  {
    if a == [] {
      assert a + b == b;
    } else {
      ReadsInParts(ReadParameter(x, a[0]), a[1..], b);
      assert (a + b)[1..] == a[1..] + b;
    }
  }

  lemma ReadsPublic(x: Xid)
    requires x.functions < 0x1_0000_0000 && BitAnd(x.functions, REQUIRED_FUNCTIONS) == 0
    ensures ReadParameters(DefaultXid, PublicParameters(x)) == x.(compression := None)
  {
    var f, r := LittleEndian(BitOr(x.functions, REQUIRED_FUNCTIONS)), REQUIRED_FUNCTIONS;
    var p1, p2, p3, p4 := Optional(N401_TX, x.n401Tx, SizeOctets), Optional(N401_RX, x.n401Rx, SizeOctets),
      Optional(K_TX, x.kTx, One), Optional(K_RX, x.kRx, One);
    OrThenClear(x.functions, r);
    OrFits32(x.functions, r);
    LittleEndianInverts(BitOr(x.functions, r));
    var first: seq<Parameter> := [(OPTIONAL_FUNCTIONS, f)];
    var x0 := DefaultXid.(functions := x.functions);
    assert ReadParameters(DefaultXid, first) == x0;
    ReadsOptional(x0, N401_TX, x.n401Tx);
    var x1 := x0.(n401Tx := x.n401Tx);
    ReadsOptional(x1, N401_RX, x.n401Rx);
    var x2 := x1.(n401Rx := x.n401Rx);
    ReadsWindow(x2, K_TX, x.kTx);
    var x3 := x2.(kTx := x.kTx);
    ReadsWindow(x3, K_RX, x.kRx);
    ReadsInParts(DefaultXid, first + p1 + p2 + p3, p4);
    ReadsInParts(DefaultXid, first + p1 + p2, p3);
    ReadsInParts(DefaultXid, first + p1, p2);
    ReadsInParts(DefaultXid, first, p1);
  }

  lemma OrFits32(a: nat, b: nat)
    requires a < 0x1_0000_0000 && b < 0x1_0000_0000
    ensures BitOr(a, b) < 0x1_0000_0000
  {
    hide BitOr;
    Pow2Of32();
    OrFits(a, b, 32);
  }

  lemma Pow2Of32()
    ensures Pow2(32) == 0x1_0000_0000
  {
    assert Pow2(8) == 256;
    Pow2Adds(8, 8);
    Pow2Adds(16, 16);
  }

  lemma ReadsOptional(x: Xid, id: Octet, value: Option<Word>)
    requires (id == N401_TX && x.n401Tx.None?) || (id == N401_RX && x.n401Rx.None?)
    ensures ReadParameters(x, Optional(id, value, SizeOctets))
      == if id == N401_TX then x.(n401Tx := value) else x.(n401Rx := value)
  {
    if value.Some? {
      ReadsSize(value.value);
    }
  }

  lemma ReadsWindow(x: Xid, id: Octet, value: Option<Octet>)
    requires (id == K_TX && x.kTx.None?) || (id == K_RX && x.kRx.None?)
    ensures ReadParameters(x, Optional(id, value, One)) == if id == K_TX then x.(kTx := value) else x.(kRx := value)
  {
    if value.Some? {
      ReadsOne(value.value);
    }
  }

  lemma {:induction false} ReadsPrivateInParts(r: Private, a: seq<Parameter>, b: seq<Parameter>)
    ensures ReadPrivateParameters(r, a + b) == ReadPrivateParameters(ReadPrivateParameters(r, a), b)
    decreases |a|
  {
    if a == [] {
      assert a + b == b;
    } else {
      ReadsPrivateInParts(ReadPrivateParameter(r, a[0]), a[1..], b);
      assert (a + b)[1..] == a[1..] + b;
    }
  }

  lemma ReadsPrivate(c: Compression)
    requires c.directions < 4
    ensures ReadPrivateParameters(Private(None, None, None), PrivateParameters(c))
      == Private(Some(c.directions), c.codewords, c.maxString)
  {
    var none := Private(None, None, None);
    var one: seq<Parameter> := [(PARAMETER_SET, V42)];
    var two: seq<Parameter> := [(P0, [c.directions])];
    var p1, p2 := Optional(P1, c.codewords, Two), Optional(P2, c.maxString, One);
    assert one + two == [(PARAMETER_SET, V42), (P0, [c.directions])];
    ReadsOne(c.directions);
    assert ReadPrivateParameters(none, one) == none;
    assert ReadPrivateParameters(none, two) == none.(directions := Some(c.directions));
    if c.codewords.Some? {
      ReadsTwo(c.codewords.value);
    }
    if c.maxString.Some? {
      ReadsOne(c.maxString.value);
    }
    ReadsPrivateInParts(none, one + two + p1, p2);
    ReadsPrivateInParts(none, one + two, p1);
    ReadsPrivateInParts(none, one, two);
  }

  lemma {:induction false} EncodedSize(ps: seq<Parameter>, most: nat)
    requires Short(ps) && forall p :: p in ps ==> |p.1| <= most
    ensures |EncodeParameters(ps)| <= |ps| * (2 + most)
  {
    if ps != [] {
      EncodedSize(ps[1..], most);
      assert |ps| * (2 + most) == (|ps| - 1) * (2 + most) + (2 + most);
    }
  }

  lemma ParsesGroup(x: Xid, id: Octet, group: Octets, rest: Octets)
    requires |group| < 0x1_0000 && id != USER_DATA
    ensures ParseGroups(x, EncodeGroup(id, group) + rest)
      == match ReadGroup(x, id, group) case None => None case Some(x') => ParseGroups(x', rest)
  {
    var all := EncodeGroup(id, group) + rest;
    var length := |group|;
    assert all == [id, length / 256, length % 256] + group + rest;
    assert all[3..3 + length] == group && all[3 + length..] == rest;
  }

  /** An XID is read back as written, unless it asks for a bit that every XID sets, or a direction there is not. */
  lemma ParsesBytes(x: Xid)
    requires x.functions < 0x1_0000_0000 && BitAnd(x.functions, REQUIRED_FUNCTIONS) == 0
    requires x.compression.Some? ==> x.compression.value.directions < 4
    ensures Parse(Bytes(x)) == Some(x)
  {
    hide EncodeGroup, EncodeParameters, PublicParameters, ParseGroups, ReadGroup;
    var group := EncodeParameters(PublicParameters(x));
    GroupSizes(x);
    ReadsPublicGroup(x);
    var tail: Octets := [];
    ParsesNothing(x);
    if x.compression.Some? {
      var private := EncodeParameters(PrivateParameters(x.compression.value));
      ReadsPrivateGroup(x);
      tail := EncodeGroup(PRIVATE, private);
      ParsesGroup(x.(compression := None), PRIVATE, private, []);
      assert tail + [] == tail;
    } else {
      assert x == x.(compression := None);
    }
    ParsesGroup(DefaultXid, PARAMETERS, group, tail);
    assert Bytes(x)[1..] == EncodeGroup(PARAMETERS, group) + tail;
  }

  lemma ParsesNothing(x: Xid)
    ensures ParseGroups(x, []) == Some(x)
  {
  }

  lemma GroupSizes(x: Xid)
    ensures |EncodeParameters(PublicParameters(x))| < 0x1_0000
    ensures x.compression.Some? ==> |EncodeParameters(PrivateParameters(x.compression.value))| < 0x1_0000
  {
    EncodedSize(PublicParameters(x), 4);
    if x.compression.Some? {
      EncodedSize(PrivateParameters(x.compression.value), 3);
    }
  }

  lemma ReadsPublicGroup(x: Xid)
    requires x.functions < 0x1_0000_0000 && BitAnd(x.functions, REQUIRED_FUNCTIONS) == 0
    ensures ReadGroup(DefaultXid, PARAMETERS, EncodeParameters(PublicParameters(x))) == Some(x.(compression := None))
  {
    hide PublicParameters, EncodeParameters;
    ParsesParameters(PublicParameters(x));
    ReadsPublic(x);
  }

  lemma ReadsPrivateGroup(x: Xid)
    requires x.compression.Some? && x.compression.value.directions < 4
    ensures
      ReadGroup(x.(compression := None), PRIVATE, EncodeParameters(PrivateParameters(x.compression.value))) == Some(x)
  {
    hide PrivateParameters, EncodeParameters;
    ParsesParameters(PrivateParameters(x.compression.value));
    ReadsPrivate(x.compression.value);
  }
}
