/** The Viterbi decoder of V.34 data mode over exact metrics, and why its survivors are best. */
module V34Viterbi {
  import opened V34Constellation
  import opened V34Trellis
  import opened V34Nearest
  import opened V34Mapper

  /** A received 4D symbol. */
  datatype Received = Received(first: Complex, second: Complex)

  datatype Metric = Infinity | Finite(value: real)

  /** The state before, and the points between. */
  datatype Survivor = Survivor(from: nat, points: Pair)

  /** What one step is filling in, a metric and a survivor for each state. */
  datatype Table = Table(metrics: seq<Metric>, survivors: seq<Survivor>)

  function Cost(r: Received, points: Pair): real {
    Distance(r.first, points.first) + Distance(r.second, points.second)
  }

  predicate Below(candidate: real, m: Metric) {
    m.Infinity? || candidate < m.value
  }

  predicate Differ(first: Subset, second: Subset) {
    (first % 2 == 1) != (second % 2 == 1)
  }

  function BestPair(r: Received, first: Subset, second: Subset): Pair {
    Pair(Nearest(r.first, first), Nearest(r.second, second))
  }

  /** Survivors for every state, from states. */
  predicate LinksOk(t: Trellis, survivors: seq<Survivor>) {
    |survivors| == States(t) && forall s :: 0 <= s < |survivors| ==> survivors[s].from < States(t)
  }

  predicate TableOk(t: Trellis, table: Table) {
    |table.metrics| == States(t) && LinksOk(t, table.survivors)
  }

  /** A way into `next`, kept where it is better. */
  function Improve(table: Table, next: nat, candidate: real, s: Survivor): Table
    requires next < |table.metrics| == |table.survivors|
  {
    if Below(candidate, table.metrics[next]) then
      Table(table.metrics[next := Finite(candidate)], table.survivors[next := s])
    else table
  }

  function First(c: nat): Subset
    requires c < 64
  {
    c / 8
  }

  function Second(c: nat): Subset
    requires c < 64
  {
    c % 8
  }

  /** One pair of labels, if `parity` allows it from `state`. */
  function Try(t: Trellis, r: Received, state: nat, metric: real, parity: bool, table: Table, c: nat): (after: Table)
    requires c < 64 && state < States(t) && TableOk(t, table)
    ensures TableOk(t, after)
  {
    if Differ(First(c), Second(c)) != parity then table
    else
      var points := BestPair(r, First(c), Second(c));
      Improve(table, Next(t, state, Inputs(First(c), Second(c))), metric + Cost(r, points), Survivor(state, points))
  }

  /** The pairs of labels from `c` on. */
  function Extend(t: Trellis, r: Received, state: nat, metric: real, parity: bool, table: Table, c: nat): (after: Table)
    requires c <= 64 && state < States(t) && TableOk(t, table)
    ensures TableOk(t, after)
    decreases 64 - c
  {
    hide Try, TableOk;
    if c == 64 then table
    else Extend(t, r, state, metric, parity, Try(t, r, state, metric, parity, table, c), c + 1)
  }

  /** The states from `state` on. */
  function ExtendAll(t: Trellis, r: Received, inversion: bool, metrics: seq<Metric>, table: Table, state: nat):
      (after: Table)
    requires state <= |metrics| == States(t) && TableOk(t, table)
    ensures TableOk(t, after)
    decreases |metrics| - state
  {
    if state == |metrics| then table
    else
      var next :=
        if metrics[state].Infinity? then table
        else Extend(t, r, state, metrics[state].value, Output(t, state) != inversion, table, 0);
      ExtendAll(t, r, inversion, metrics, next, state + 1)
  }

  function Empty(t: Trellis): (table: Table)
    ensures TableOk(t, table)
  {
    var points := Pair(Point(1, 1), Point(1, 1));
    Table(seq(States(t), _ => Infinity), seq(States(t), _ => Survivor(0, points)))
  }

  function Fill(t: Trellis, r: Received, inversion: bool, metrics: seq<Metric>): (table: Table)
    requires |metrics| == States(t)
    ensures TableOk(t, table)
  {
    ExtendAll(t, r, inversion, metrics, Empty(t), 0)
  }

  function Least(a: Metric, b: Metric): Metric {
    if a.Infinity? then b else if b.Infinity? || a.value <= b.value then a else b
  }

  function Floor(metrics: seq<Metric>): Metric {
    if metrics == [] then Infinity else Least(metrics[0], Floor(metrics[1..]))
  }

  function Lowered(metrics: seq<Metric>, floor: real): (lowered: seq<Metric>)
    ensures |lowered| == |metrics|
    ensures forall s :: 0 <= s < |metrics| ==>
      lowered[s] == if metrics[s].Infinity? then Infinity else Finite(metrics[s].value - floor)
  {
    if metrics == [] then []
    else [if metrics[0].Infinity? then Infinity else Finite(metrics[0].value - floor)] + Lowered(metrics[1..], floor)
  }

  function FloorOf(metrics: seq<Metric>): real {
    if Floor(metrics).Infinity? then 0.0 else Floor(metrics).value
  }

  /** The state in which `metrics` is least, the first of them. */
  function Best(metrics: seq<Metric>): (state: nat)
    ensures metrics != [] ==> state < |metrics|
  {
    if |metrics| <= 1 then 0
    else
      var n := |metrics| - 1;
      var before := Best(metrics[..n]);
      if metrics[n].Finite? && Below(metrics[n].value, metrics[before]) then n else before
  }

  // What a step finds.

  /** A step from `from` to `to` that the trellis allows. */
  predicate Branch(t: Trellis, inversion: bool, from: nat, points: Pair, to: nat) {
    && OnOddGrid(points.first) && OnOddGrid(points.second)
    && Differ(SubsetOf(points.first), SubsetOf(points.second)) == (Output(t, from) != inversion)
    && to == Next(t, from, Inputs(SubsetOf(points.first), SubsetOf(points.second)))
  }

  predicate AtMost(m: Metric, cost: real) {
    m.Finite? && m.value <= cost
  }

  /** An entry is a way in from a state, at its cost. */
  predicate Attained(t: Trellis, r: Received, inversion: bool, metrics: seq<Metric>, m: Metric, s: Survivor, to: nat) {
    m.Finite? ==>
      && s.from < |metrics| && metrics[s.from].Finite?
      && Branch(t, inversion, s.from, s.points, to)
      && m.value == metrics[s.from].value + Cost(r, s.points)
  }

  ghost predicate AllAttained(t: Trellis, r: Received, inversion: bool, metrics: seq<Metric>, table: Table)
    requires TableOk(t, table)
  {
    forall n :: 0 <= n < |table.metrics| ==>
      Attained(t, r, inversion, metrics, table.metrics[n], table.survivors[n], n)
  }

  /** No entry got worse. */
  ghost predicate NoWorse(before: Table, after: Table)
    requires |before.metrics| == |after.metrics|
  {
    forall n, cost :: 0 <= n < |before.metrics| && AtMost(before.metrics[n], cost) ==> AtMost(after.metrics[n], cost)
  }

  lemma NoWorseChains(a: Table, b: Table, c: Table)
    requires |a.metrics| == |b.metrics| == |c.metrics| && NoWorse(a, b) && NoWorse(b, c)
    ensures NoWorse(a, c)
  {
    hide AtMost;
  }

  lemma BestPairBranches(t: Trellis, r: Received, inversion: bool, state: nat, c: nat)
    requires c < 64 && Differ(First(c), Second(c)) == (Output(t, state) != inversion)
    ensures Branch(t, inversion, state, BestPair(r, First(c), Second(c)), Next(t, state, Inputs(First(c), Second(c))))
  {
    hide Nearest, SubsetOf, OnOddGrid, Next, Output;
    NearestIsIn(r.first, First(c));
    NearestIsIn(r.second, Second(c));
  }

  lemma TryTries(t: Trellis, r: Received, inversion: bool, metrics: seq<Metric>, state: nat, table: Table, c: nat)
    requires c < 64 && TableOk(t, table)
    requires state < |metrics| == States(t) && metrics[state].Finite?
    requires AllAttained(t, r, inversion, metrics, table)
    ensures var after := Try(t, r, state, metrics[state].value, Output(t, state) != inversion, table, c);
      && AllAttained(t, r, inversion, metrics, after)
      && NoWorse(table, after)
      && (Differ(First(c), Second(c)) == (Output(t, state) != inversion) ==>
          AtMost(after.metrics[Next(t, state, Inputs(First(c), Second(c)))],
                 metrics[state].value + Cost(r, BestPair(r, First(c), Second(c)))))
  {
    hide Branch, Next, Output, Cost, BestPair, Inputs, Differ;
    if Differ(First(c), Second(c)) == (Output(t, state) != inversion) {
      BestPairBranches(t, r, inversion, state, c);
    }
  }

  /** All pairs of labels from one state have been tried. */
  lemma {:induction false} ExtendTries(
      t: Trellis, r: Received, inversion: bool, metrics: seq<Metric>, state: nat, table: Table, c: nat)
    requires c <= 64 && TableOk(t, table)
    requires state < |metrics| == States(t) && metrics[state].Finite?
    requires AllAttained(t, r, inversion, metrics, table)
    ensures var after := Extend(t, r, state, metrics[state].value, Output(t, state) != inversion, table, c);
      AllAttained(t, r, inversion, metrics, after) && NoWorse(table, after)
    decreases 64 - c
  {
    hide Try, AllAttained, Output;
    if c < 64 {
      var parity := Output(t, state) != inversion;
      var tried := Try(t, r, state, metrics[state].value, parity, table, c);
      TryTries(t, r, inversion, metrics, state, table, c);
      ExtendTries(t, r, inversion, metrics, state, tried, c + 1);
      NoWorseChains(table, tried, Extend(t, r, state, metrics[state].value, parity, tried, c + 1));
    }
  }

  lemma {:induction false} ExtendReaches(
      t: Trellis, r: Received, inversion: bool, metrics: seq<Metric>, state: nat, table: Table, c: nat, d: nat)
    requires c <= d < 64 && TableOk(t, table)
    requires state < |metrics| == States(t) && metrics[state].Finite?
    requires AllAttained(t, r, inversion, metrics, table)
    requires Differ(First(d), Second(d)) == (Output(t, state) != inversion)
    ensures var after := Extend(t, r, state, metrics[state].value, Output(t, state) != inversion, table, c);
      AtMost(after.metrics[Next(t, state, Inputs(First(d), Second(d)))],
             metrics[state].value + Cost(r, BestPair(r, First(d), Second(d))))
    decreases d - c
  {
    hide Try, AllAttained, Output, Next, Inputs, Cost, BestPair, AtMost, Differ, First, Second;
    var parity := Output(t, state) != inversion;
    var tried := Try(t, r, state, metrics[state].value, parity, table, c);
    TryTries(t, r, inversion, metrics, state, table, c);
    if c < d {
      ExtendReaches(t, r, inversion, metrics, state, tried, c + 1, d);
    } else {
      ExtendTries(t, r, inversion, metrics, state, tried, c + 1);
    }
  }

  lemma {:induction false} ExtendAllTries(
      t: Trellis, r: Received, inversion: bool, metrics: seq<Metric>, table: Table, state: nat)
    requires state <= |metrics| == States(t) && TableOk(t, table)
    requires AllAttained(t, r, inversion, metrics, table)
    ensures var after := ExtendAll(t, r, inversion, metrics, table, state);
      AllAttained(t, r, inversion, metrics, after) && NoWorse(table, after)
    decreases |metrics| - state
  {
    hide Extend, AllAttained, Output;
    if state < |metrics| {
      if metrics[state].Infinity? {
        ExtendAllTries(t, r, inversion, metrics, table, state + 1);
      } else {
        var next := Extend(t, r, state, metrics[state].value, Output(t, state) != inversion, table, 0);
        ExtendTries(t, r, inversion, metrics, state, table, 0);
        ExtendAllTries(t, r, inversion, metrics, next, state + 1);
        NoWorseChains(table, next, ExtendAll(t, r, inversion, metrics, next, state + 1));
      }
    }
  }

  lemma {:induction false} ExtendAllReaches(
      t: Trellis, r: Received, inversion: bool, metrics: seq<Metric>, table: Table, state: nat, from: nat, d: nat)
    requires state <= from < |metrics| == States(t) && TableOk(t, table) && d < 64
    requires AllAttained(t, r, inversion, metrics, table)
    requires metrics[from].Finite? && Differ(First(d), Second(d)) == (Output(t, from) != inversion)
    ensures var after := ExtendAll(t, r, inversion, metrics, table, state);
      AtMost(after.metrics[Next(t, from, Inputs(First(d), Second(d)))],
             metrics[from].value + Cost(r, BestPair(r, First(d), Second(d))))
    decreases from - state
  {
    hide Extend, AllAttained, Output, Next, Inputs, Cost, BestPair, AtMost, Differ, First, Second;
    if metrics[state].Infinity? {
      ExtendAllReaches(t, r, inversion, metrics, table, state + 1, from, d);
    } else {
      var next := Extend(t, r, state, metrics[state].value, Output(t, state) != inversion, table, 0);
      ExtendTries(t, r, inversion, metrics, state, table, 0);
      if state < from {
        ExtendAllReaches(t, r, inversion, metrics, next, state + 1, from, d);
      } else {
        ExtendReaches(t, r, inversion, metrics, state, table, 0, d);
        ExtendAllTries(t, r, inversion, metrics, next, state + 1);
      }
    }
  }

  /** Every entry is a way in. */
  lemma FillAttains(t: Trellis, r: Received, inversion: bool, metrics: seq<Metric>)
    requires |metrics| == States(t)
    ensures AllAttained(t, r, inversion, metrics, Fill(t, r, inversion, metrics))
  {
    hide ExtendAll;
    ExtendAllTries(t, r, inversion, metrics, Empty(t), 0);
  }

  lemma LabelPair(first: Subset, second: Subset) returns (d: nat)
    ensures d < 64 && First(d) == first && Second(d) == second
  {
    d := 8 * first + second;
  }

  /** No way in, through any points of the odd grid, is better than the entry. */
  lemma FillIsBest(
      t: Trellis, r: Received, inversion: bool, metrics: seq<Metric>, from: nat, points: Pair, to: nat)
    requires from < |metrics| == States(t) && metrics[from].Finite? && to < States(t)
    requires Branch(t, inversion, from, points, to)
    ensures AtMost(Fill(t, r, inversion, metrics).metrics[to], metrics[from].value + Cost(r, points))
  {
    hide ExtendAll, Output, Next, Inputs, SubsetOf, Distance, Nearest, First, Second;
    var d := LabelPair(SubsetOf(points.first), SubsetOf(points.second));
    assert AllAttained(t, r, inversion, metrics, Empty(t));
    ExtendAllReaches(t, r, inversion, metrics, Empty(t), 0, from, d);
    NearestIsBest(r.first, SubsetOf(points.first), points.first);
    NearestIsBest(r.second, SubsetOf(points.second), points.second);
  }
}
