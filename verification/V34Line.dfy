/** An encoder and a decoder of V.34 data mode as objects at the two ends of a line. */
module V34Line {
  import opened Prelude
  import opened V34Frames
  import D = V34DecoderClass
  import E = V34EncoderClass
  import F = V34Framing
  import R = V34RoundTrip
  import V34Coder

  /**
   * However the bits and the points came, a decoder that has heard well each point that an encoder like it sent has
   * given all of the encoder's bits but those of the last six mapping frames.
   */
  lemma BitsComeThrough(
      e: E.Encoder, d: D.Decoder, rate: F.SymbolRate, bitRate: nat, expanded: bool)
    requires e.Valid() && d.Valid() && F.New(rate, bitRate, expanded) == Some(d.framing)
    requires e.framing == d.framing && e.trellis == d.trellis && e.precoding == d.precoding
    requires e.nonlinear == d.whitener.nonlinear && R.HeardThrough(e.nonlinear, d.heard, e.sent)
    ensures d.given == Flatten(R.Arrived(e.taken))
  {
    hide R.HeardThrough, R.Arrived, Flatten, F.New, D.Follows, F.FramingOk, V34Coder.EncoderOk, EncodeAll, FramesFull;
    D.GivesBack(d, rate, bitRate, expanded, e.taken);
  }
}
