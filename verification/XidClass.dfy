/** Writing and reading an XID information field step by step, against its specification. */
module XidClass {
  import opened Prelude
  import opened Arithmetic
  import opened XidField

  // Writing.

  method PushParameter(group: Octets, id: Octet, value: Octets) returns (after: Octets)
    requires |value| < 256
    ensures after == group + EncodeParameter((id, value))
  {
    after := group + [id];
    after := after + [|value|];
    after := after + value;
  }

  method PushGroup(bytes: Octets, id: Octet, group: Octets) returns (after: Octets)
    ensures after == bytes + EncodeGroup(id, group)
  {
    after := bytes + [id];
    var length := if |group| < 0x1_0000 then |group| else 0xffff;
    after := after + [length / 256, length % 256];
    after := after + group;
  }

  lemma {:induction false} ParametersJoin(a: seq<Parameter>, b: seq<Parameter>)
    requires Short(a) && Short(b)
    ensures Short(a + b) && EncodeParameters(a + b) == EncodeParameters(a) + EncodeParameters(b)
  {
    hide EncodeParameter;
    assert forall p :: p in a + b ==> p in a || p in b;
    if a == [] {
      assert a + b == b;
    } else {
      assert forall p :: p in a[1..] ==> p in a;
      ParametersJoin(a[1..], b);
      assert (a + b)[1..] == a[1..] + b;
    }
  }

  lemma OneMore(ps: seq<Parameter>, id: Octet, value: Octets)
    requires Short(ps) && |value| < 256
    ensures Short(ps + [(id, value)])
    ensures EncodeParameters(ps + [(id, value)]) == EncodeParameters(ps) + EncodeParameter((id, value))
  {
    hide EncodeParameter;
    ParametersJoin(ps, [(id, value)]);
  }

  method PushOptional(group: Octets, ghost ps: seq<Parameter>, id: Octet, value: Option<Octets>) returns (after: Octets)
    requires Short(ps) && group == EncodeParameters(ps)
    requires value.Some? ==> |value.value| < 256
    ensures var more := ps + if value.Some? then [(id, value.value)] else [];
      Short(more) && after == EncodeParameters(more)
  {
    hide EncodeParameter, EncodeParameters;
    after := group;
    assert ps + [] == ps;
    if value.Some? {
      OneMore(ps, id, value.value);
      after := PushParameter(group, id, value.value);
    }
  }

  function Sized(octets: Option<Word>): (value: Option<Octets>)
    ensures value.Some? ==> |value.value| <= 4
  {
    if octets.Some? then Some(SizeOctets(octets.value)) else None
  }

  function Single(k: Option<Octet>): (value: Option<Octets>)
    ensures value.Some? ==> |value.value| == 1
  {
    if k.Some? then Some([k.value]) else None
  }

  method PublicGroup(x: Xid) returns (group: Octets)
    ensures group == EncodeParameters(PublicParameters(x))
  {
    hide EncodeParameter, EncodeParameters, SizeOctets, BitOr;
    ghost var ps: seq<Parameter> := [];
    EncodeNothing();
    OneMore([], OPTIONAL_FUNCTIONS, LittleEndian(BitOr(x.functions, REQUIRED_FUNCTIONS)));
    group := PushParameter([], OPTIONAL_FUNCTIONS, LittleEndian(BitOr(x.functions, REQUIRED_FUNCTIONS)));
    ps := [(OPTIONAL_FUNCTIONS, LittleEndian(BitOr(x.functions, REQUIRED_FUNCTIONS)))];
    assert [] + ps == ps;
    group := PushOptional(group, ps, N401_TX, Sized(x.n401Tx));
    ps := ps + Optional(N401_TX, x.n401Tx, SizeOctets);
    group := PushOptional(group, ps, N401_RX, Sized(x.n401Rx));
    ps := ps + Optional(N401_RX, x.n401Rx, SizeOctets);
    group := PushOptional(group, ps, K_TX, Single(x.kTx));
    ps := ps + Optional(K_TX, x.kTx, One);
    group := PushOptional(group, ps, K_RX, Single(x.kRx));
    ps := ps + Optional(K_RX, x.kRx, One);
    assert ps == PublicParameters(x);
  }

  method PrivateGroup(c: Compression) returns (group: Octets)
    ensures group == EncodeParameters(PrivateParameters(c))
  {
    hide EncodeParameter, EncodeParameters;
    ghost var ps: seq<Parameter> := [];
    EncodeNothing();
    group := PushOptional([], ps, PARAMETER_SET, Some(V42));
    ps := [(PARAMETER_SET, V42)];
    assert [] + ps == ps;
    group := PushOptional(group, ps, P0, Some([c.directions]));
    ps := ps + [(P0, [c.directions])];
    group := PushOptional(group, ps, P1, if c.codewords.Some? then Some(Two(c.codewords.value)) else None);
    ps := ps + Optional(P1, c.codewords, Two);
    group := PushOptional(group, ps, P2, Single(c.maxString));
    ps := ps + Optional(P2, c.maxString, One);
    assert ps == PrivateParameters(c);
  }

  lemma EncodeNothing()
    ensures EncodeParameters([]) == []
  {
  }

  method Write(x: Xid) returns (bytes: Octets)
    ensures bytes == Bytes(x)
  {
    hide EncodeParameters, PublicParameters, PrivateParameters, EncodeGroup;
    var group := PublicGroup(x);
    bytes := PushGroup([FORMAT], PARAMETERS, group);
    if x.compression.Some? {
      var private := PrivateGroup(x.compression.value);
      bytes := PushGroup(bytes, PRIVATE, private);
    }
  }

  // Reading.

  method Parameters(group: Octets) returns (found: Option<seq<Parameter>>)
    ensures found == ParseParameters(group)
  {
    var rest, done := group, [];
    assert ParseParameters(group).Some? ==> [] + ParseParameters(group).value == ParseParameters(group).value;
    while |rest| >= 2
      invariant ParseParameters(group) ==
        if ParseParameters(rest).None? then None else Some(done + ParseParameters(rest).value)
      decreases |rest|
    {
      var length := rest[1];
      if |rest| - 2 < length {
        return None;
      }
      var parameter := (rest[0], rest[2..2 + length]);
      ghost var after := ParseParameters(rest[2 + length..]);
      assert after.Some? ==> done + ([parameter] + after.value) == done + [parameter] + after.value;
      rest := rest[2 + length..];
      done := done + [parameter];
    }
    assert done + [] == done;
    found := Some(done);
  }

  method Numbered(value: Octets) returns (n: Option<nat>)
    ensures n == Number(value)
  {
    var sum: nat := 0;
    for i := 0 to |value|
      invariant NumberFrom(sum, value[i..]) == Number(value)
    {
      assert value[i..][1..] == value[i + 1..];
      if sum * 256 >= 0x1_0000_0000 {
        return None;
      }
      sum := sum * 256 + value[i];
    }
    assert value[|value|..] == [];
    n := Some(sum);
  }

  /** The fields that reading a group changes. */
  class Reader {
    var functions: nat
    var n401Tx: Option<Word>
    var n401Rx: Option<Word>
    var kTx: Option<Octet>
    var kRx: Option<Octet>
    var compression: Option<Compression>

    function View(): Xid
      reads this
    {
      Xid(functions, n401Tx, n401Rx, kTx, kRx, compression)
    }

    constructor ()
      ensures View() == DefaultXid
    {
      functions, n401Tx, n401Rx, kTx, kRx, compression := 0, None, None, None, None, None;
    }

    /** One public parameter. */
    method Read(p: Parameter)
      modifies this
      ensures View() == ReadParameter(old(View()), p)
    {
      hide Number, BitClear, FromLittleEndian;
      var number := Numbered(p.1);
      if p.0 == OPTIONAL_FUNCTIONS {
        functions := BitClear(FromLittleEndian(p.1), REQUIRED_FUNCTIONS);
      } else if p.0 == N401_TX {
        n401Tx := MapOption(number, Size);
      } else if p.0 == N401_RX {
        n401Rx := MapOption(number, Size);
      } else if p.0 == K_TX {
        kTx := MapOption(number, XidField.Window);
      } else if p.0 == K_RX {
        kRx := MapOption(number, XidField.Window);
      }
    }

    method ReadPublic(group: Octets) returns (ok: bool)
      modifies this
      ensures ok <==> ParseParameters(group).Some?
      ensures View() == if ok then ReadParameters(old(View()), ParseParameters(group).value) else old(View())
    {
      hide ParseParameters, ReadParameter;
      var found := Parameters(group);
      if found.None? {
        return false;
      }
      var ps := found.value;
      for i := 0 to |ps|
        invariant ReadParameters(View(), ps[i..]) == ReadParameters(old(View()), ps)
      {
        assert ps[i..][1..] == ps[i + 1..];
        Read(ps[i]);
      }
      assert ps[|ps|..] == [];
      ok := true;
    }

    method ReadPrivate(group: Octets) returns (ok: bool)
      modifies this`compression
      ensures ok <==> ParseParameters(group).Some?
      ensures Some(View()) == if ok then ReadGroup(old(View()), PRIVATE, group) else Some(old(View()))
    {
      hide ParseParameters, ReadPrivateParameter;
      var found := Parameters(group);
      if found.None? {
        return false;
      }
      var ps := found.value;
      var read := Private(None, None, None);
      for i := 0 to |ps|
        invariant ReadPrivateParameters(read, ps[i..]) == ReadPrivateParameters(Private(None, None, None), ps)
      {
        assert ps[i..][1..] == ps[i + 1..];
        read := ReadPrivateParameter(read, ps[i]);
      }
      assert ps[|ps|..] == [];
      compression := MapOption(read.directions, (d: Octet) => Compression(d, read.codewords, read.maxString));
      ok := true;
    }
  }

  /** What `XidField.Parse` gives, by a loop over the groups. */
  method Read(info: Octets) returns (x: Option<Xid>)
    ensures x == XidField.Parse(info)
  {
    hide ReadGroup;
    if info == [] || info[0] != FORMAT {
      return None;
    }
    var rest := info[1..];
    var reader := new Reader();
    while rest != [] && rest[0] != USER_DATA
      invariant ParseGroups(reader.View(), rest) == ParseGroups(DefaultXid, info[1..])
      decreases |rest|
    {
      if |rest| < 3 {
        return None;
      }
      var id := rest[0];
      var length: nat := 256 * (rest[1] as int) + rest[2];
      if |rest| - 3 < length {
        return None;
      }
      var group := rest[3..3 + length];
      ghost var before := reader.View();
      GroupIs(before, id, group);
      rest := rest[3 + length..];
      var ok := true;
      if id == PARAMETERS {
        ok := reader.ReadPublic(group);
      } else if id == PRIVATE {
        ok := reader.ReadPrivate(group);
      }
      if !ok {
        return None;
      }
    }
    x := Some(reader.View());
  }

  lemma GroupIs(x: Xid, id: Octet, group: Octets)
    ensures id != PARAMETERS && id != PRIVATE ==> ReadGroup(x, id, group) == Some(x)
    ensures id == PARAMETERS || id == PRIVATE ==> (ReadGroup(x, id, group).None? <==> ParseParameters(group).None?)
    ensures id == PARAMETERS && ParseParameters(group).Some? ==>
      ReadGroup(x, id, group) == Some(ReadParameters(x, ParseParameters(group).value))
  {
  }
}
