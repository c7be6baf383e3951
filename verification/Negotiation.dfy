/** How the two ends settle on V.42 bis directions and parameters. */
module Negotiation {
  import opened Prelude
  import opened Arithmetic
  import opened V42Dictionary
  import opened XidField

  const FROM_INITIATOR := 1
  const TO_INITIATOR := 2

  /** Values of the source's types, not yet known to be ones that section 5.1 of V.42 bis allows. */
  type Limits = p: Parameters | p.codewords < 0x1_0000 && p.maxString < 256 witness Parameters(0, 0)

  /** Which ways an end compresses, and within what limits: as offered, or as agreed. */
  datatype Directions = Directions(transmit: bool, receive: bool, parameters: Limits)

  datatype Result<+T> = Ok(value: T) | ProceduralError

  function Settled(directions: Octet, p: Limits): Compression {
    Compression(directions, Some(p.codewords), Some(p.maxString))
  }

  /** The parameters of the caller's XID command. */
  function Proposal(offer: Directions): Compression {
    Settled(Bit(offer.transmit) * FROM_INITIATOR + Bit(offer.receive) * TO_INITIATOR, offer.parameters)
  }

  /** A limit that is not named is the least that V.42 bis allows. */
  function Received(c: Compression): Result<Limits> {
    var p := Parameters(
      if c.codewords.Some? then c.codewords.value else MIN_CODEWORDS,
      if c.maxString.Some? then c.maxString.value else MIN_STRING);
    if p.Valid() then Ok(p) else ProceduralError
  }

  function Lower(a: Limits, b: Limits): Limits {
    Parameters(Min(a.codewords, b.codewords), Min(a.maxString, b.maxString))
  }

  function Common(offer: Option<Directions>, theirs: Compression): Octet {
    var ours := if offer.None? then 0
      else Bit(offer.value.receive) * FROM_INITIATOR + Bit(offer.value.transmit) * TO_INITIATOR;
    CommonFits(theirs.directions, ours);
    BitAnd(theirs.directions, ours)
  }

  lemma {:induction false} CommonFits(a: nat, b: nat)
    ensures BitAnd(a, b) <= b
  {
    if a != 0 && b != 0 {
      CommonFits(a / 2, b / 2);
    }
  }

  /** What the called end answers and settles on: both directions and limits no more than were proposed. */
  function Answer(offer: Option<Directions>, theirs: Compression): Result<(Compression, Option<Directions>)> {
    match Received(theirs)
    case ProceduralError => ProceduralError
    case Ok(proposed) =>
      var directions := Common(offer, theirs);
      if offer.None? || directions == 0 then
        Ok((Compression(0, None, None), None))
      else
        var parameters := Lower(proposed, offer.value.parameters);
        Ok((Settled(directions, parameters),
          Some(Directions(BitAnd(directions, TO_INITIATOR) != 0, BitAnd(directions, FROM_INITIATOR) != 0, parameters))))
  }

  /** What the caller settles on when it hears the answer, or its failure. */
  function Conclude(offer: Directions, reply: Option<Compression>): Result<Option<Directions>> {
    if reply.None? || reply.value.directions == 0 then Ok(None)
    else if BitClear(reply.value.directions, Proposal(offer).directions) != 0 then ProceduralError
    else
      match Received(reply.value)
      case ProceduralError => ProceduralError
      case Ok(p) =>
        Ok(Some(Directions(
          BitAnd(reply.value.directions, FROM_INITIATOR) != 0,
          BitAnd(reply.value.directions, TO_INITIATOR) != 0,
          Lower(p, offer.parameters))))
  }

  function Mirrored(d: Option<Directions>): Option<Directions> {
    match d
    case None => None
    case Some(v) => Some(Directions(v.receive, v.transmit, v.parameters))
  }

  /** What two offers have in common, for the one that initiated. */
  function Agreed(initiator: Directions, responder: Option<Directions>): Option<Directions> {
    if responder.None? then None
    else
      var transmit := initiator.transmit && responder.value.receive;
      var receive := initiator.receive && responder.value.transmit;
      if transmit || receive then
        Some(Directions(transmit, receive, Lower(initiator.parameters, responder.value.parameters)))
      else None
  }

  lemma SmallAnd(a: nat, b: nat)
    requires a < 4 && b < 4
    ensures BitAnd(a, b) == (if a % 2 == 1 && b % 2 == 1 then 1 else 0) + (if a >= 2 && b >= 2 then 2 else 0)
    ensures BitClear(a, b) == (if a % 2 == 1 && b % 2 == 0 then 1 else 0) + (if a >= 2 && b < 2 then 2 else 0)
  {
    assert a / 2 / 2 == 0 && b / 2 / 2 == 0;
    assert BitAnd(a / 2, b / 2) == if a >= 2 && b >= 2 then 1 else 0;
    assert BitClear(a / 2, b / 2) == if a >= 2 && b < 2 then 1 else 0;
  }

  /** The responder ends with what both offered, mirrored, and says so in its reply. */
  lemma AnswersAgreement(initiator: Directions, responder: Option<Directions>)
    requires initiator.parameters.Valid() && (responder.Some? ==> responder.value.parameters.Valid())
    ensures var agreed := Agreed(initiator, responder);
      Answer(responder, Proposal(initiator)) == Ok((
        if agreed.None? then Compression(0, None, None)
        else Settled(Bit(agreed.value.transmit) + 2 * Bit(agreed.value.receive), agreed.value.parameters),
        Mirrored(agreed)))
    ensures var agreed := Agreed(initiator, responder); agreed.Some? ==> agreed.value.parameters.Valid()
  {
    hide BitAnd;
    var theirs := Proposal(initiator);
    var ours := if responder.None? then 0
      else Bit(responder.value.receive) * FROM_INITIATOR + Bit(responder.value.transmit) * TO_INITIATOR;
    SmallAnd(theirs.directions, ours);
    var directions := Common(responder, theirs);
    SmallAnd(directions, TO_INITIATOR);
    SmallAnd(directions, FROM_INITIATOR);
  }

  /** For all valid offers both ends finish without error, and alike: each direction they share, at the lower limits. */
  lemma BothEndsAgree(initiator: Directions, responder: Option<Directions>)
    requires initiator.parameters.Valid() && (responder.Some? ==> responder.value.parameters.Valid())
    ensures var answer := Answer(responder, Proposal(initiator));
      && answer.Ok?
      && Conclude(initiator, Some(answer.value.0)) == Ok(Agreed(initiator, responder))
      && answer.value.1 == Mirrored(Agreed(initiator, responder))
  {
    hide BitAnd, BitClear;
    AnswersAgreement(initiator, responder);
    var reply := Answer(responder, Proposal(initiator)).value.0;
    SmallAnd(reply.directions, Proposal(initiator).directions);
    SmallAnd(reply.directions, FROM_INITIATOR);
    SmallAnd(reply.directions, TO_INITIATOR);
  }

  // Whatever the far end says.

  /** The values of a message, those left out being the defaults, are ones that section 5.1 of V.42 bis allows. */
  predicate Acceptable(c: Compression) {
    && (c.codewords.Some? ==> c.codewords.value >= 512)
    && (c.maxString.Some? ==> 6 <= c.maxString.value <= 250)
  }

  /** No more than both ends offered. */
  predicate Within(d: Directions, offer: Directions, theirs: Compression) {
    && (d.transmit ==> offer.transmit) && (d.receive ==> offer.receive)
    && d.parameters.codewords <= offer.parameters.codewords && d.parameters.maxString <= offer.parameters.maxString
    && (theirs.codewords.Some? ==> d.parameters.codewords <= theirs.codewords.value)
    && (theirs.maxString.Some? ==> d.parameters.maxString <= theirs.maxString.value)
    && (offer.parameters.Valid() ==> d.parameters.Valid())
  }

  /** A proposal of any octets fails exactly if its values are not allowed, and never gets more than was offered. */
  lemma AnswerIsWithin(offer: Option<Directions>, theirs: Compression)
    ensures Answer(offer, theirs).ProceduralError? <==> !Acceptable(theirs)
    ensures Acceptable(theirs) && Answer(offer, theirs).value.1.Some? ==>
      offer.Some? && Within(Answer(offer, theirs).value.1.value, offer.value, theirs)
  {
    if offer.Some? && Acceptable(theirs) {
      var ours := Bit(offer.value.receive) * FROM_INITIATOR + Bit(offer.value.transmit) * TO_INITIATOR;
      CommonIs(theirs.directions, ours);
      SmallAnd(Common(offer, theirs), TO_INITIATOR);
      SmallAnd(Common(offer, theirs), FROM_INITIATOR);
    }
  }

  lemma {:induction false} CommonIs(a: nat, b: nat)
    requires b < 4
    ensures BitAnd(a, b) < 4
    ensures b % 2 == 0 ==> BitAnd(a, b) % 2 == 0
    ensures b < 2 ==> BitAnd(a, b) < 2
  {
    CommonFits(a, b);
  }

  lemma {:induction false} ClearNothing(a: nat, b: nat)
    requires BitClear(a, b) == 0
    ensures a <= b && BitAnd(a, b) == a
  {
    if a > 0 {
      ClearNothing(a / 2, b / 2);
    }
  }

  /**
   * A reply fails exactly if it names some direction, and one that was not proposed or values that are not allowed.
   * What it does not refuse is within what was offered.
   */
  lemma ConcludeIsWithin(offer: Directions, reply: Option<Compression>)
    ensures Conclude(offer, reply).ProceduralError? <==>
      && reply.Some? && reply.value.directions != 0
      && (BitClear(reply.value.directions, Proposal(offer).directions) != 0 || !Acceptable(reply.value))
    ensures Conclude(offer, reply).Ok? && Conclude(offer, reply).value.Some? ==>
      reply.Some? && Within(Conclude(offer, reply).value.value, offer, reply.value)
  {
    hide BitAnd, BitClear;
    if reply.Some? && BitClear(reply.value.directions, Proposal(offer).directions) == 0 {
      ClearNothing(reply.value.directions, Proposal(offer).directions);
      SmallAnd(reply.value.directions, Proposal(offer).directions);
      SmallAnd(reply.value.directions, FROM_INITIATOR);
      SmallAnd(reply.value.directions, TO_INITIATOR);
    }
  }

  /** A reply that names no direction is taken as no compression without a look at its values. */
  lemma EmptyReplyIsNotRead(offer: Directions)
    ensures !Acceptable(Compression(0, Some(1), Some(0)))
    ensures Conclude(offer, Some(Compression(0, Some(1), Some(0)))) == Ok(None)
  {
    hide BitAnd, BitClear;
  }
}
