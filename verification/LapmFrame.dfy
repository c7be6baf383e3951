/** LAPM frames and the octets that stand for them, one to one on those that are well formed (section 8.2 of V.42). */
module LapmFrame {
  import opened Prelude

  /** A sequence number modulo 128. */
  type Seven = x: int | 0 <= x < 128

  datatype Supervisory = Rr | Rnr | Rej | Srej

  datatype Unnumbered = Sabme | Dm | Ui | Disc | Ua | Frmr | Xid | Test

  const ALL_UNNUMBERED := [Sabme, Dm, Ui, Disc, Ua, Frmr, Xid, Test]

  datatype Control =
    | I(ns: Seven, nr: Seven, poll: bool)
    | S(kind: Supervisory, nr: Seven, pf: bool)
    | U(command: Unnumbered, pf: bool)

  datatype Frame = Frame(cr: bool, control: Control, info: Octets)

  /** Invalid frames are discarded without a word, undefined ones are a frame-rejection condition. */
  datatype Parsed = Ok(frame: Frame) | Invalid | Undefined

  /** The control octet of an unnumbered frame in table 8 of V.42, less its P/F bit. */
  function UnnumberedCode(kind: Unnumbered): Octet {
    match kind
    case Sabme => 0x6f
    case Dm => 0x0f
    case Ui => 0x03
    case Disc => 0x43
    case Ua => 0x63
    case Frmr => 0x87
    case Xid => 0xaf
    case Test => 0xe3
  }

  predicate TakesInfo(kind: Unnumbered) {
    kind == Ui || kind == Frmr || kind == Xid || kind == Test
  }

  function SupervisoryCode(kind: Supervisory): Octet {
    match kind
    case Rr => 0x01
    case Rnr => 0x05
    case Rej => 0x09
    case Srej => 0x0d
  }

  function ControlBytes(c: Control): Octets {
    match c
    case I(ns, nr, poll) => [2 * ns, 2 * nr + Bit(poll)]
    case S(kind, nr, pf) => [SupervisoryCode(kind), 2 * nr + Bit(pf)]
    case U(kind, pf) => [UnnumberedCode(kind) + 16 * Bit(pf)]
  }

  /** The octets of a frame on DLCI 0, the only one in use. */
  function Bytes(f: Frame): Octets {
    [2 * Bit(f.cr) + 1] + ControlBytes(f.control) + f.info
  }

  function Parse(bytes: Octets): Parsed {
    if |bytes| < 2 then Invalid
    else if bytes[0] % 2 == 0 || bytes[0] / 4 != 0 then Invalid
    else
      var cr := bytes[0] / 2 % 2 == 1;
      if bytes[1] % 2 == 0 || bytes[1] % 4 == 1 then Numbered(cr, bytes[1], bytes[2..])
      else ParseUnnumbered(cr, bytes[1], bytes[2..])
  }

  /** The frame that two octets of control begin: I or S by the low bits of the first. */
  function Numbered(cr: bool, first: Octet, rest: Octets): Parsed {
    if rest == [] then Invalid
    else
      var nr, pf, info := rest[0] / 2, rest[0] % 2 == 1, rest[1..];
      if first % 2 == 0 then Ok(Frame(cr, I(first / 2, nr, pf), info))
      else
        var kind :=
          if first == 0x01 then Some(Rr)
          else if first == 0x05 then Some(Rnr)
          else if first == 0x09 then Some(Rej)
          else if first == 0x0d then Some(Srej)
          else None;
        if kind.None? || (info != [] && kind.value != Srej) then Undefined
        else Ok(Frame(cr, S(kind.value, nr, pf), info))
  }

  function FindUnnumbered(code: int, kinds: seq<Unnumbered>): Option<Unnumbered> {
    if kinds == [] then None
    else if UnnumberedCode(kinds[0]) == code then Some(kinds[0])
    else FindUnnumbered(code, kinds[1..])
  }

  function ParseUnnumbered(cr: bool, first: Octet, rest: Octets): Parsed {
    var pf := first / 16 % 2 == 1;
    var kind := FindUnnumbered(first - 16 * Bit(pf), ALL_UNNUMBERED);
    if kind.None? || (rest != [] && !TakesInfo(kind.value)) then Undefined
    else Ok(Frame(cr, U(kind.value, pf), rest))
  }

  /** An information field only where Table 8 allows one. */
  predicate WellFormed(f: Frame) {
    match f.control
    case I(_, _, _) => true
    case S(kind, _, _) => f.info == [] || kind == Srej
    case U(kind, _) => f.info == [] || TakesInfo(kind)
  }

  lemma {:induction false} FindsIn(code: int, kinds: seq<Unnumbered>)
    ensures var found := FindUnnumbered(code, kinds);
      if found.Some? then UnnumberedCode(found.value) == code
      else forall kind :: kind in kinds ==> UnnumberedCode(kind) != code
  {
    if kinds != [] {
      FindsIn(code, kinds[1..]);
    }
  }

  lemma CodesDiffer(a: Unnumbered, b: Unnumbered)
    requires UnnumberedCode(a) == UnnumberedCode(b)
    ensures a == b
  {
  }

  lemma FindsCode(kind: Unnumbered)
    ensures FindUnnumbered(UnnumberedCode(kind), ALL_UNNUMBERED) == Some(kind)
  {
    FindsIn(UnnumberedCode(kind), ALL_UNNUMBERED);
    var found := FindUnnumbered(UnnumberedCode(kind), ALL_UNNUMBERED);
    assert kind in ALL_UNNUMBERED;
    if found.Some? {
      CodesDiffer(kind, found.value);
    }
  }

  lemma ParsesUnnumbered(cr: bool, kind: Unnumbered, pf: bool, info: Octets)
    ensures ParseUnnumbered(cr, UnnumberedCode(kind) + 16 * Bit(pf), info)
      == if info == [] || TakesInfo(kind) then Ok(Frame(cr, U(kind, pf), info)) else Undefined
  {
    hide FindUnnumbered;
    FindsCode(kind);
    assert UnnumberedCode(kind) / 16 % 2 == 0;
  }

  /** A frame is read back as it was written, or rejected if its information field is out of place. */
  lemma ParsesBytes(f: Frame)
    ensures Parse(Bytes(f)) == if WellFormed(f) then Ok(f) else Undefined
  {
    hide ParseUnnumbered;
    var bytes := Bytes(f);
    match f.control
    case I(ns, nr, poll) =>
      assert bytes[2..] == [2 * nr + Bit(poll)] + f.info;
      assert ([2 * nr + Bit(poll)] + f.info)[1..] == f.info;
    case S(kind, nr, pf) =>
      assert bytes[2..] == [2 * nr + Bit(pf)] + f.info;
      assert ([2 * nr + Bit(pf)] + f.info)[1..] == f.info;
    case U(kind, pf) =>
      assert bytes[2..] == f.info;
      assert bytes[1] % 4 == 3;
      ParsesUnnumbered(f.cr, kind, pf, f.info);
  }

  /** Only its own octets are read as a frame. */
  lemma BytesOfParsed(bytes: Octets)
    requires Parse(bytes).Ok?
    ensures WellFormed(Parse(bytes).frame) && Bytes(Parse(bytes).frame) == bytes
  {
    hide FindUnnumbered;
    var rest := bytes[2..];
    assert bytes == [bytes[0], bytes[1]] + rest;
    if bytes[1] % 2 == 0 || bytes[1] % 4 == 1 {
      assert rest == [rest[0]] + rest[1..];
    } else {
      FindsIn(bytes[1] - 16 * Bit(bytes[1] / 16 % 2 == 1), ALL_UNNUMBERED);
    }
  }
}
