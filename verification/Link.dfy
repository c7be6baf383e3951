/** Compression and error correction together: what one DTE has of what the other sent. */
module Link {
  import opened Prelude
  import opened V42Dictionary
  import V42bis
  import V42RoundTrip
  import opened Negotiation
  import opened LapmPair
  import opened LapmRun
  import opened LapmSettled

  /** What an end compresses with once it has been connected, if it transmits compressed. */
  function Sends(x: Half): Option<Parameters> {
    if x.end.compression.Some? && x.end.compression.value.transmit then Some(x.end.compression.value.parameters)
    else None
  }

  /** What an end decompresses with once it has been connected, if it receives compressed. */
  function Hears(x: Half): Option<Parameters> {
    if x.end.compression.Some? && x.end.compression.value.receive then Some(x.end.compression.value.parameters)
    else None
  }

  /** LAPM was given what the encoder put out for the DTE's chunks and the flushes between them, or the chunks. */
  ghost predicate Given(x: Half, ops: seq<V42bis.Op>) {
    match Sends(x)
    case None => x.given == V42bis.TextOf(ops)
    case Some(parameters) =>
      parameters.Valid() && x.given == V42bis.Run(V42bis.NewEnc(parameters), ops).writer.out
  }

  /** What the DTE has for all that LAPM delivered, and whether it was without an error. */
  ghost function Text(y: Half): (bool, Octets) {
    match Hears(y)
    case None => (true, Delivered(y))
    case Some(parameters) =>
      if !parameters.Valid() then (false, [])
      else
        var r := V42bis.DecodeAll(V42bis.NewDec(parameters), Delivered(y));
        (r.status.Fine?, r.out)
  }

  lemma AgreementIsValid(offer: Option<Directions>, offer': Option<Directions>)
    requires ValidOffer(offer) && ValidOffer(offer')
    ensures Agreement(offer, offer').Some? ==> Agreement(offer, offer').value.parameters.Valid()
  {
  }

  /** Each end hears with what the other sends with, from the first octet. */
  lemma CodecsMatch(s: Pair, offer: Option<Directions>, offer': Option<Directions>)
    requires ValidOffer(offer) && ValidOffer(offer') && WereConnected(s, offer, offer')
    ensures Hears(s.called) == Sends(s.caller) && Hears(s.caller) == Sends(s.called)
    ensures Sends(s.caller).Some? ==> Sends(s.caller).value.Valid()
    ensures Sends(s.called).Some? ==> Sends(s.called).value.Valid()
  {
    hide WereConnected, Agreement;
    StaysNegotiated(s, offer, offer');
    AgreementIsValid(offer, offer');
  }

  /** Any prefix of what an end was given is text for the other DTE, and all of it after a flush is all its text. */
  lemma HalfArrives(x: Half, y: Half, ops: seq<V42bis.Op>)
    requires Given(x, ops) && Hears(y) == Sends(x) && Delivered(y) <= x.given
    ensures Text(y).0 && Text(y).1 <= V42bis.TextOf(ops)
    ensures Delivered(y) == x.given && ops != [] && ops[|ops| - 1].Idle? ==> Text(y).1 == V42bis.TextOf(ops)
  {
    hide V42bis.Run, V42bis.DecodeAll;
    if Sends(x).Some? {
      var parameters := Sends(x).value;
      var wire := V42bis.Run(V42bis.NewEnc(parameters), ops).writer.out;
      V42RoundTrip.RoundTrip(parameters, ops, |Delivered(y)|);
      assert Delivered(y) == wire[..|Delivered(y)|];
      assert wire[..|wire|] == wire;
    }
  }

  /**
   * Whatever both ends offered, and whatever the line loses, from when both were connected on, also once either has
   * released, the text that each DTE has is a prefix of the text that the other sent, with no error from the decoder;
   * and it is all of that text when all is delivered after a flush.
   */
  lemma TextArrives(
      s: Pair, offer: Option<Directions>, offer': Option<Directions>, ops: seq<V42bis.Op>, ops': seq<V42bis.Op>)
    requires ValidOffer(offer) && ValidOffer(offer') && WereConnected(s, offer, offer')
    requires Given(s.caller, ops) && Given(s.called, ops')
    ensures Text(s.called).0 && Text(s.called).1 <= V42bis.TextOf(ops)
    ensures Text(s.caller).0 && Text(s.caller).1 <= V42bis.TextOf(ops')
    ensures Delivered(s.called) == s.caller.given && ops != [] && ops[|ops| - 1].Idle? ==>
      Text(s.called).1 == V42bis.TextOf(ops)
    ensures Delivered(s.caller) == s.called.given && ops' != [] && ops'[|ops'| - 1].Idle? ==>
      Text(s.caller).1 == V42bis.TextOf(ops')
  {
    hide Reachable, WereConnected, Given, Text, Hears, Sends, Agreement;
    StaysNegotiated(s, offer, offer');
    DeliversInOrder(s, offer, offer');
    CodecsMatch(s, offer, offer');
    HalfArrives(s.caller, s.called, ops);
    HalfArrives(s.called, s.caller, ops');
  }
}
