/** The echo canceller's history of what was sent: a ring written twice over, so that any stretch of it is one slice. */
module EchoHistory {
  import opened Prelude

  const RING := 8192

  /** Where sample `t` is first written; later samples go before it. */
  function At(t: nat): (i: nat)
    ensures i < RING
  {
    RING - 1 - t % RING
  }

  /** A sample, and whether it can train the canceller. */
  datatype Sample = Sample(x: real, broadband: bool)

  function Probe(s: Sample): real {
    if s.broadband then s.x else 0.0
  }

  /** The samples from `t` back, newest first. */
  function Back(values: seq<real>, t: nat, len: nat): (back: seq<real>)
    requires t < |values| && len <= t + 1
    ensures |back| == len
    ensures forall j :: 0 <= j < len ==> back[j] == values[t - j]
  {
    if len == 0 then [] else Back(values, t, len - 1) + [values[t - (len - 1)]]
  }

  function Values(log: seq<Sample>): (values: seq<real>)
    ensures |values| == |log|
    ensures forall i :: 0 <= i < |log| ==> values[i] == log[i].x
  {
    if log == [] then [] else Values(log[..|log| - 1]) + [log[|log| - 1].x]
  }

  function Probes(log: seq<Sample>): (values: seq<real>)
    ensures |values| == |log|
    ensures forall i :: 0 <= i < |log| ==> values[i] == Probe(log[i])
  {
    if log == [] then [] else Probes(log[..|log| - 1]) + [Probe(log[|log| - 1])]
  }

  /** From `f` to the newest every sample was broadband, and the one before `f` was not. */
  predicate RunFrom(log: seq<Sample>, from: Option<nat>) {
    match from
    case None => log == [] || !log[|log| - 1].broadband
    case Some(f) =>
      && f < |log|
      && (forall i :: f <= i < |log| ==> log[i].broadband)
      && (f > 0 ==> !log[f - 1].broadband)
  }

  /** The last `RING` values are where `At` says, and again a ring later. */
  ghost predicate Mirrors(buffer: seq<real>, values: seq<real>) {
    && |buffer| == 2 * RING
    && forall t :: 0 <= t < |values| < t + RING + 1 ==>
      buffer[At(t)] == values[t] && buffer[At(t) + RING] == values[t]
  }

  lemma OtherPlace(t: nat, u: nat)
    requires t < u < t + RING
    ensures At(t) != At(u)
  {
    var a, b := t / RING, u / RING;
    assert t == RING * a + t % RING && u == RING * b + u % RING;
  }

  lemma MirrorsGrow(buffer: seq<real>, values: seq<real>, x: real)
    requires Mirrors(buffer, values)
    ensures var p := At(|values|);
      Mirrors(buffer[p := x][p + RING := x], values + [x])
  {
    hide At;
    var p := At(|values|);
    var grown := values + [x];
    var after := buffer[p := x][p + RING := x];
    forall t | 0 <= t < |grown| < t + RING + 1
      ensures after[At(t)] == grown[t] && after[At(t) + RING] == grown[t]
    {
      if t < |values| {
        OtherPlace(t, |values|);
      }
    }
  }

  lemma BackPlace(t: nat, j: nat)
    requires j <= t && j < RING
    ensures At(t) + j == At(t - j) || At(t) + j == At(t - j) + RING
  {
    var a, r := t / RING, t % RING;
    assert t == RING * a + r;
    if j <= r {
      Remainder(t - j, a, r - j);
    } else {
      Remainder(t - j, a - 1, r - j + RING);
    }
  }

  lemma Remainder(t: nat, a: int, r: nat)
    requires t == RING * a + r && r < RING
    ensures t % RING == r
  {
  }

  /** A stretch of the history is one slice of the buffer. */
  lemma SliceIsBack(buffer: seq<real>, values: seq<real>, t: nat, len: nat)
    requires Mirrors(buffer, values)
    requires t < |values| && |values| - t + len <= RING && len <= t + 1
    ensures At(t) + len <= |buffer|
    ensures buffer[At(t)..At(t) + len] == Back(values, t, len)
  {
    hide At;
    if len > 0 {
      BackPlace(t, len - 1);
    }
    var slice := buffer[At(t)..At(t) + len];
    forall j | 0 <= j < len ensures slice[j] == values[t - j] {
      BackPlace(t, j);
    }
  }

  class History {
    const sent: array<real>
    const broadband: array<real>
    var total: nat
    var broadbandFrom: Option<nat>
    /** Everything pushed. */
    ghost var log: seq<Sample>

    ghost predicate Valid()
      reads this, sent, broadband
    {
      && sent != broadband
      && total == |log|
      && Mirrors(sent[..], Values(log)) && Mirrors(broadband[..], Probes(log))
      && RunFrom(log, broadbandFrom)
    }

    constructor ()
      ensures Valid() && log == [] && fresh(sent) && fresh(broadband)
    {
      sent := new real[2 * RING](_ => 0.0);
      broadband := new real[2 * RING](_ => 0.0);
      total, broadbandFrom, log := 0, None, [];
    }

    method Push(x: real, isBroadband: bool)
      requires Valid()
      modifies this, sent, broadband
      ensures Valid() && log == old(log) + [Sample(x, isBroadband)]
    {
      hide At, Mirrors, Values, Probes;
      var p := At(total);
      var probe := if isBroadband then x else 0.0;
      ghost var sample := Sample(x, isBroadband);
      Lengths(sent[..], Values(log));
      Lengths(broadband[..], Probes(log));
      MirrorsGrow(sent[..], Values(log), x);
      MirrorsGrow(broadband[..], Probes(log), probe);
      sent[p] := x;
      sent[p + RING] := x;
      broadband[p] := probe;
      broadband[p + RING] := probe;
      assert sent[..] == old(sent[..])[p := x][p + RING := x];
      assert broadband[..] == old(broadband[..])[p := probe][p + RING := probe];
      assert (log + [sample])[..|log|] == log;
      assert Values(log + [sample]) == Values(log) + [x];
      assert Probes(log + [sample]) == Probes(log) + [probe];
      broadbandFrom := if isBroadband then (if broadbandFrom.Some? then broadbandFrom else Some(total)) else None;
      total := total + 1;
      log := log + [sample];
    }

    /** `len` samples back from time `t`, exactly if the ring still has every one of them. */
    method BackFrom(t: nat, len: nat, probes: bool) returns (back: Option<seq<real>>)
      requires Valid()
      ensures back.Some? <==> t < |log| && |log| - t + len <= RING && len <= t + 1
      ensures back.Some? ==> back.value == Back(if probes then Probes(log) else Values(log), t, len)
    {
      hide At, Mirrors, Values, Probes, Back;
      if !(t < total && total - t + len <= RING && t + 1 >= len) {
        return None;
      }
      var from := At(t);
      if probes {
        SliceIsBack(broadband[..], Probes(log), t, len);
        assert broadband[..][from..from + len] == broadband[from..from + len];
        back := Some(broadband[from..from + len]);
      } else {
        SliceIsBack(sent[..], Values(log), t, len);
        assert sent[..][from..from + len] == sent[from..from + len];
        back := Some(sent[from..from + len]);
      }
    }
  }

  lemma Lengths(buffer: seq<real>, values: seq<real>)
    requires Mirrors(buffer, values)
    ensures |buffer| == 2 * RING
  {
  }
}
