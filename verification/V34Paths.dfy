/** Runs of the V.34 trellis decoder: survivors are best paths, and a path that was nearly received is decided on. */
module V34Paths {
  import opened V34Constellation
  import opened V34Trellis
  import opened V34Nearest
  import opened V34Mapper
  import opened V34Viterbi
  import F = V34Framing

  /** How many columns of survivors are kept: six mapping frames. */
  const DEPTH := 24

  // Paths through the trellis from state 0.

  function EndState(t: Trellis, path: seq<Pair>): (state: nat)
    ensures state < States(t)
    decreases |path|
  {
    if path == [] then 0
    else
      var n := |path| - 1;
      Next(t, EndState(t, path[..n]), Inputs(SubsetOf(path[n].first), SubsetOf(path[n].second)))
  }

  /** Points of the odd grid whose parity is what the trellis puts out, inverted as table 12 says. */
  predicate Allowed(t: Trellis, f: F.Framing, path: seq<Pair>)
    requires f.p > 0
    decreases |path|
  {
    path != [] ==>
      var n := |path| - 1;
      Allowed(t, f, path[..n]) && Branch(t, Inversion(f, n), EndState(t, path[..n]), path[n], EndState(t, path))
  }

  function PathCost(log: seq<Received>, path: seq<Pair>): real
    requires |log| == |path|
    decreases |log|
  {
    if log == [] then 0.0
    else
      var n := |log| - 1;
      PathCost(log[..n], path[..n]) + Cost(log[n], path[n])
  }

  // The decoder with nothing forgotten.

  /** Metrics, every step's survivors, and the floors taken away so far. */
  datatype Trace = Trace(metrics: seq<Metric>, history: seq<seq<Survivor>>, floors: real)

  predicate TraceOk(t: Trellis, trace: Trace) {
    && |trace.metrics| == States(t)
    && HistoryOk(t, trace.history)
  }

  predicate HistoryOk(t: Trellis, history: seq<seq<Survivor>>) {
    forall i :: 0 <= i < |history| ==> LinksOk(t, history[i])
  }

  function StartMetrics(t: Trellis): (metrics: seq<Metric>)
    ensures |metrics| == States(t)
  {
    seq(States(t), (s: nat) => if s == 0 then Finite(0.0) else Infinity)
  }

  function TraceOf(t: Trellis, f: F.Framing, log: seq<Received>): (trace: Trace)
    requires f.p > 0
    ensures TraceOk(t, trace) && |trace.history| == |log|
    decreases |log|
  {
    if log == [] then Trace(StartMetrics(t), [], 0.0)
    else
      var n := |log| - 1;
      var before := TraceOf(t, f, log[..n]);
      var table := Fill(t, log[n], Inversion(f, n), before.metrics);
      var floor := FloorOf(table.metrics);
      Trace(Lowered(table.metrics, floor), before.history + [table.survivors], before.floors + floor)
  }

  /** The path that the survivor links spell out, back from a state. */
  function SurvivorPath(t: Trellis, history: seq<seq<Survivor>>, state: nat): (path: seq<Pair>)
    requires HistoryOk(t, history) && state < States(t)
    ensures |path| == |history|
    decreases |history|
  {
    if history == [] then []
    else
      var n := |history| - 1;
      var survivor := SurvivorAt(t, history[n], state);
      SurvivorPath(t, history[..n], survivor.from) + [survivor.points]
  }

  function SurvivorAt(t: Trellis, survivors: seq<Survivor>, state: nat): (s: Survivor)
    requires LinksOk(t, survivors) && state < States(t)
    ensures s.from < States(t)
  {
    survivors[state]
  }

  lemma TraceSteps(t: Trellis, f: F.Framing, log: seq<Received>)
    requires f.p > 0 && log != []
    ensures var n := |log| - 1;
      var before, trace := TraceOf(t, f, log[..n]), TraceOf(t, f, log);
      var table := Fill(t, log[n], Inversion(f, n), before.metrics);
      && trace.metrics == Lowered(table.metrics, FloorOf(table.metrics))
      && trace.history[..n] == before.history && trace.history[n] == table.survivors
      && trace.floors == before.floors + FloorOf(table.metrics)
  {
    hide Fill, Inversion, FloorOf;
  }

  lemma AttainedAt(t: Trellis, r: Received, inversion: bool, metrics: seq<Metric>, s: nat)
    requires |metrics| == States(t) && s < States(t)
    ensures var table := Fill(t, r, inversion, metrics);
      Attained(t, r, inversion, metrics, table.metrics[s], SurvivorAt(t, table.survivors, s), s)
  {
    hide Fill, Attained;
    FillAttains(t, r, inversion, metrics);
  }

  lemma AttainedBefore(
      t: Trellis, r: Received, inversion: bool, metrics: seq<Metric>, m: Metric, survivor: Survivor, to: nat)
    requires m.Finite? && Attained(t, r, inversion, metrics, m, survivor, to)
    ensures survivor.from < |metrics| && metrics[survivor.from].Finite?
    ensures Branch(t, inversion, survivor.from, survivor.points, to)
    ensures m.value == metrics[survivor.from].value + Cost(r, survivor.points)
  {
    hide Branch, Cost;
  }

  /** The survivor of a state that can be reached: where it came from, and at what cost. */
  lemma StepAttains(t: Trellis, f: F.Framing, log: seq<Received>, s: nat) returns (survivor: Survivor)
    requires f.p > 0 && s < States(t) && log != [] && TraceOf(t, f, log).metrics[s].Finite?
    ensures survivor.from < States(t)
    ensures var n := |log| - 1;
      var before, trace := TraceOf(t, f, log[..n]), TraceOf(t, f, log);
      && before.metrics[survivor.from].Finite?
      && Branch(t, Inversion(f, n), survivor.from, survivor.points, s)
      && trace.metrics[s].value + trace.floors
        == before.metrics[survivor.from].value + before.floors + Cost(log[n], survivor.points)
      && SurvivorPath(t, trace.history, s)
        == SurvivorPath(t, before.history, survivor.from) + [survivor.points]
  {
    hide Fill, Inversion, FloorOf, Branch, Cost, TraceOf, LinksOk, Attained, SurvivorAt;
    var n := |log| - 1;
    var before, trace := TraceOf(t, f, log[..n]), TraceOf(t, f, log);
    var table := Fill(t, log[n], Inversion(f, n), before.metrics);
    TraceSteps(t, f, log);
    AttainedAt(t, log[n], Inversion(f, n), before.metrics, s);
    survivor := SurvivorAt(t, table.survivors, s);
    AttainedBefore(t, log[n], Inversion(f, n), before.metrics, table.metrics[s], survivor, s);
  }

  lemma PathGrows(t: Trellis, f: F.Framing, log: seq<Received>, path: seq<Pair>, points: Pair, to: nat)
    requires f.p > 0 && |log| == |path| + 1 && Allowed(t, f, path)
    requires Branch(t, Inversion(f, |path|), EndState(t, path), points, to)
    ensures var grown := path + [points];
      && Allowed(t, f, grown) && EndState(t, grown) == to
      && PathCost(log, grown) == PathCost(log[..|path|], path) + Cost(log[|path|], points)
  {
    hide Inversion, Branch, Cost;
    BranchEnds(t, Inversion(f, |path|), EndState(t, path), points, to);
    assert (path + [points])[..|path|] == path;
  }

  /** A finite metric is what its survivors' path costs, less the floors. */
  lemma {:induction false} SurvivorsAttain(t: Trellis, f: F.Framing, log: seq<Received>, s: nat)
    requires f.p > 0 && s < States(t) && TraceOf(t, f, log).metrics[s].Finite?
    ensures var trace := TraceOf(t, f, log);
      var path := SurvivorPath(t, trace.history, s);
      && Allowed(t, f, path) && EndState(t, path) == s
      && PathCost(log, path) == trace.metrics[s].value + trace.floors
    decreases |log|
  {
    if log == [] {
      TraceStarts(t, f);
    } else {
      hide Inversion, Branch, Cost, TraceOf, HistoryOk, SurvivorPath, Allowed, EndState, PathCost;
      var n := |log| - 1;
      var survivor := StepAttains(t, f, log, s);
      SurvivorsAttain(t, f, log[..n], survivor.from);
      var path := SurvivorPath(t, TraceOf(t, f, log[..n]).history, survivor.from);
      PathGrows(t, f, log, path, survivor.points, s);
    }
  }

  lemma TraceStarts(t: Trellis, f: F.Framing)
    requires f.p > 0
    ensures TraceOf(t, f, []) == Trace(StartMetrics(t), [], 0.0)
  {
  }

  lemma BranchEnds(t: Trellis, inversion: bool, from: nat, points: Pair, to: nat)
    requires Branch(t, inversion, from, points, to)
    ensures to == Next(t, from, Inputs(SubsetOf(points.first), SubsetOf(points.second)))
  {
  }

  /** No allowed path to a state costs less than its metric and the floors; where there is one, it is finite. */
  lemma {:induction false} NoPathIsBetter(t: Trellis, f: F.Framing, log: seq<Received>, path: seq<Pair>)
    requires f.p > 0 && |log| == |path| && Allowed(t, f, path)
    ensures var trace := TraceOf(t, f, log);
      var m := trace.metrics[EndState(t, path)];
      m.Finite? && m.value + trace.floors <= PathCost(log, path)
    decreases |log|
  {
    hide Fill, Inversion, FloorOf, Branch, Cost, TraceOf;
    if log == [] {
      TraceStarts(t, f);
    } else {
      var n := |log| - 1;
      var before := TraceOf(t, f, log[..n]);
      NoPathIsBetter(t, f, log[..n], path[..n]);
      TraceSteps(t, f, log);
      FillIsBest(t, log[n], Inversion(f, n), before.metrics, EndState(t, path[..n]), path[n], EndState(t, path));
    }
  }

  lemma {:induction false} FloorFinds(metrics: seq<Metric>, s: nat)
    requires s < |metrics| && metrics[s].Finite?
    ensures Floor(metrics).Finite? && Floor(metrics).value <= metrics[s].value
  {
    if s > 0 {
      FloorFinds(metrics[1..], s - 1);
    }
  }

  /** Some state can always be reached, so there is a floor to take away. */
  lemma {:induction false} SomeFinite(t: Trellis, f: F.Framing, log: seq<Received>) returns (s: nat)
    requires f.p > 0
    ensures s < States(t) && TraceOf(t, f, log).metrics[s].Finite?
    ensures log != [] ==>
      Floor(Fill(t, log[|log| - 1], Inversion(f, |log| - 1), TraceOf(t, f, log[..|log| - 1]).metrics).metrics).Finite?
    decreases |log|
  {
    hide Fill, Inversion, TraceOf;
    if log == [] {
      s := 0;
      TraceStarts(t, f);
    } else {
      var n := |log| - 1;
      var before := TraceOf(t, f, log[..n]);
      var from := SomeFinite(t, f, log[..n]);
      var points := SomeBranch(t, Inversion(f, n), from);
      s := Next(t, from, Inputs(SubsetOf(points.first), SubsetOf(points.second)));
      FillIsBest(t, log[n], Inversion(f, n), before.metrics, from, points, s);
      FloorFinds(Fill(t, log[n], Inversion(f, n), before.metrics).metrics, s);
      TraceSteps(t, f, log);
    }
  }

  lemma SomeBranch(t: Trellis, inversion: bool, from: nat) returns (points: Pair)
    ensures Branch(t, inversion, from, points, Next(t, from, Inputs(SubsetOf(points.first), SubsetOf(points.second))))
  {
    hide Output, Next;
    points := Pair(Point(1, 1), if Output(t, from) == inversion then Point(1, 1) else Point(1, -1));
    assert SubsetOf(Point(1, 1)) == 0 && SubsetOf(Point(1, -1)) == 1;
  }

  // Which path is decided on.

  lemma {:induction false} BestIsBest(metrics: seq<Metric>, s: nat)
    requires s < |metrics| && metrics[s].Finite?
    ensures Best(metrics) < |metrics| && AtMost(metrics[Best(metrics)], metrics[s].value)
    decreases |metrics|
  {
    var n := |metrics| - 1;
    if n > 0 {
      if s < n {
        BestIsBest(metrics[..n], s);
      }
    }
  }

  function BestPath(t: Trellis, f: F.Framing, log: seq<Received>): (path: seq<Pair>)
    requires f.p > 0
    ensures |path| == |log|
  {
    var trace := TraceOf(t, f, log);
    SurvivorPath(t, trace.history, Best(trace.metrics))
  }

  /** The path back from the least metric is allowed, and no allowed path is nearer to what was received. */
  lemma BestPathIsBest(t: Trellis, f: F.Framing, log: seq<Received>, path: seq<Pair>)
    requires f.p > 0 && |log| == |path| && Allowed(t, f, path)
    ensures Allowed(t, f, BestPath(t, f, log))
    ensures PathCost(log, BestPath(t, f, log)) <= PathCost(log, path)
  {
    hide TraceOf, Best;
    var trace := TraceOf(t, f, log);
    NoPathIsBetter(t, f, log, path);
    BestIsBest(trace.metrics, EndState(t, path));
    SurvivorsAttain(t, f, log, Best(trace.metrics));
  }

  /** Less than 1 away in every coordinate. */
  ghost predicate NearlyReceived(log: seq<Received>, path: seq<Pair>) {
    && |log| == |path|
    && forall i :: 0 <= i < |log| ==> Within(log[i].first, path[i].first) && Within(log[i].second, path[i].second)
  }

  lemma CostBelow(r: Received, sent: Pair, other: Pair)
    requires Within(r.first, sent.first) && Within(r.second, sent.second)
    requires OnOddGrid(sent.first) && OnOddGrid(sent.second) && OnOddGrid(other.first) && OnOddGrid(other.second)
    ensures Cost(r, sent) <= Cost(r, other)
    ensures sent != other ==> Cost(r, sent) < Cost(r, other)
  {
    hide Distance, OnOddGrid, Within;
    WithinIsNearest(r.first, sent.first, other.first);
    WithinIsNearest(r.second, sent.second, other.second);
  }

  lemma BranchOnGrid(t: Trellis, inversion: bool, from: nat, points: Pair, to: nat)
    requires Branch(t, inversion, from, points, to)
    ensures OnOddGrid(points.first) && OnOddGrid(points.second)
  {
  }

  lemma {:induction false} NearIsBest(t: Trellis, f: F.Framing, log: seq<Received>, sent: seq<Pair>, other: seq<Pair>)
    requires f.p > 0 && NearlyReceived(log, sent) && |other| == |sent|
    requires Allowed(t, f, sent) && Allowed(t, f, other)
    ensures PathCost(log, sent) <= PathCost(log, other)
    ensures PathCost(log, sent) == PathCost(log, other) ==> sent == other
    decreases |log|
  {
    hide Branch, Cost, Within, Inversion, OnOddGrid, EndState;
    if log != [] {
      var n := |log| - 1;
      NearIsBest(t, f, log[..n], sent[..n], other[..n]);
      BranchOnGrid(t, Inversion(f, n), EndState(t, sent[..n]), sent[n], EndState(t, sent));
      BranchOnGrid(t, Inversion(f, n), EndState(t, other[..n]), other[n], EndState(t, other));
      CostBelow(log[n], sent[n], other[n]);
      assert sent == sent[..n] + [sent[n]] && other == other[..n] + [other[n]];
    }
  }

  /** An allowed path that was nearly received is the one the survivors spell out. */
  lemma BestPathIsSent(t: Trellis, f: F.Framing, log: seq<Received>, sent: seq<Pair>)
    requires f.p > 0 && NearlyReceived(log, sent) && Allowed(t, f, sent)
    ensures BestPath(t, f, log) == sent
  {
    hide BestPath, Allowed, NearlyReceived, PathCost;
    assert |log| == |sent| by { Lengths(log, sent); }
    BestPathIsBest(t, f, log, sent);
    NearIsBest(t, f, log, sent, BestPath(t, f, log));
  }

  lemma Lengths(log: seq<Received>, path: seq<Pair>)
    requires NearlyReceived(log, path)
    ensures |log| == |path|
  {
  }

  // The decoder with its window of survivors.

  /** What the decoder keeps, and what it has decided so far. */
  datatype Window = Window(metrics: seq<Metric>, survivors: seq<seq<Survivor>>, received: nat, decided: seq<Pair>)

  predicate WindowOk(t: Trellis, w: Window) {
    |w.metrics| == States(t) && HistoryOk(t, w.survivors)
  }

  function Start(t: Trellis): (w: Window)
    ensures WindowOk(t, w)
  {
    Window(StartMetrics(t), [], 0, [])
  }

  function Step(t: Trellis, f: F.Framing, w: Window, r: Received): (after: Window)
    requires f.p > 0 && WindowOk(t, w)
    ensures WindowOk(t, after)
  {
    var table := Fill(t, r, Inversion(f, w.received), w.metrics);
    Window(Lowered(table.metrics, FloorOf(table.metrics)), w.survivors + [table.survivors], w.received + 1, w.decided)
  }

  /** The oldest points on the way back from a state. */
  function Walk(t: Trellis, survivors: seq<seq<Survivor>>, state: nat, decision: Pair): Pair
    requires HistoryOk(t, survivors) && state < States(t)
    decreases |survivors|
  {
    if survivors == [] then decision
    else
      var n := |survivors| - 1;
      var survivor := SurvivorAt(t, survivors[n], state);
      Walk(t, survivors[..n], survivor.from, survivor.points)
  }

  const NOWHERE := Pair(Point(1, 1), Point(1, 1))

  function TraceBack(t: Trellis, w: Window): (after: Window)
    requires w.survivors != [] && WindowOk(t, w)
    ensures WindowOk(t, after)
  {
    hide Best, LinksOk;
    var decision := Walk(t, w.survivors, Best(w.metrics), NOWHERE);
    w.(survivors := w.survivors[1..], decided := w.decided + [decision])
  }

  function Take(t: Trellis, f: F.Framing, w: Window, r: Received): (after: Window)
    requires f.p > 0 && WindowOk(t, w)
    ensures WindowOk(t, after)
  {
    hide Step, WindowOk, TraceBack;
    var stepped := Step(t, f, w, r);
    if |stepped.survivors| > DEPTH then TraceBack(t, stepped) else stepped
  }

  function TakeAll(t: Trellis, f: F.Framing, log: seq<Received>): (w: Window)
    requires f.p > 0
    ensures WindowOk(t, w)
    decreases |log|
  {
    if log == [] then Start(t) else Take(t, f, TakeAll(t, f, log[..|log| - 1]), log[|log| - 1])
  }

  function Late(n: nat): nat {
    if n < DEPTH then 0 else n - DEPTH
  }

  lemma {:induction false} WalkIsPath(t: Trellis, history: seq<seq<Survivor>>, from: nat, state: nat, decision: Pair)
    requires from <= |history| && HistoryOk(t, history) && state < States(t)
    ensures Walk(t, history[from..], state, decision) ==
      if from == |history| then decision else SurvivorPath(t, history, state)[from]
    decreases |history|
  {
    hide LinksOk;
    if from < |history| {
      var n := |history| - 1;
      var kept := history[from..];
      assert kept[..|kept| - 1] == history[..n][from..];
      var survivor := SurvivorAt(t, history[n], state);
      WalkIsPath(t, history[..n], from, survivor.from, survivor.points);
    }
  }

  /** The window is the end of what the trace has. */
  ghost predicate Tails(t: Trellis, f: F.Framing, log: seq<Received>, w: Window)
    requires f.p > 0
  {
    var trace := TraceOf(t, f, log);
    && w.metrics == trace.metrics && w.received == |log|
    && w.survivors == trace.history[Late(|log|)..]
    && |w.decided| == Late(|log|)
  }

  lemma TailGrows<T>(s: seq<T>, from: nat, n: nat)
    requires from <= n && |s| == n + 1
    ensures s[..n][from..] + [s[n]] == s[from..]
  {
  }

  lemma StepTails(t: Trellis, f: F.Framing, log: seq<Received>, w: Window)
    requires f.p > 0 && WindowOk(t, w) && log != [] && Tails(t, f, log[..|log| - 1], w)
    ensures var stepped := Step(t, f, w, log[|log| - 1]);
      var trace := TraceOf(t, f, log);
      && stepped.metrics == trace.metrics && stepped.received == |log|
      && stepped.survivors == trace.history[Late(|log| - 1)..]
      && stepped.decided == w.decided
  {
    hide Fill, Inversion, FloorOf, TraceOf, LinksOk, Lowered;
    TraceSteps(t, f, log);
    TailGrows(TraceOf(t, f, log).history, Late(|log| - 1), |log| - 1);
  }

  lemma TakeTails(t: Trellis, f: F.Framing, log: seq<Received>, w: Window)
    requires f.p > 0 && WindowOk(t, w) && log != [] && Tails(t, f, log[..|log| - 1], w)
    ensures var after := Take(t, f, w, log[|log| - 1]);
      && Tails(t, f, log, after)
      && after.decided == w.decided
        + if |log| > DEPTH then [BestPath(t, f, log)[|log| - 1 - DEPTH]] else []
  {
    hide Step, Best, TraceOf, LinksOk;
    var n := |log| - 1;
    var trace := TraceOf(t, f, log);
    StepTails(t, f, log, w);
    if n >= DEPTH {
      WalkIsPath(t, trace.history, Late(n), Best(trace.metrics), NOWHERE);
      assert trace.history[Late(n)..][1..] == trace.history[Late(n + 1)..];
    }
  }

  lemma {:induction false} WindowIsTrace(t: Trellis, f: F.Framing, log: seq<Received>)
    requires f.p > 0
    ensures Tails(t, f, log, TakeAll(t, f, log))
    decreases |log|
  {
    hide Take, Tails;
    if log != [] {
      WindowIsTrace(t, f, log[..|log| - 1]);
      TakeTails(t, f, log, TakeAll(t, f, log[..|log| - 1]));
    } else {
      StartTails(t, f);
    }
  }

  lemma StartTails(t: Trellis, f: F.Framing)
    requires f.p > 0
    ensures Tails(t, f, [], Start(t))
  {
  }

  /** Each decision is from the best path of its time. */
  lemma DecisionIsBest(t: Trellis, f: F.Framing, log: seq<Received>)
    requires f.p > 0 && |log| > DEPTH
    ensures TakeAll(t, f, log).decided
      == TakeAll(t, f, log[..|log| - 1]).decided + [BestPath(t, f, log)[|log| - 1 - DEPTH]]
  {
    hide Take, Tails, BestPath;
    WindowIsTrace(t, f, log[..|log| - 1]);
    TakeTails(t, f, log, TakeAll(t, f, log[..|log| - 1]));
  }

  lemma {:induction false} AllowedBefore(t: Trellis, f: F.Framing, path: seq<Pair>, n: nat)
    requires f.p > 0 && n <= |path| && Allowed(t, f, path)
    ensures Allowed(t, f, path[..n])
    decreases |path|
  {
    hide Branch, EndState, Inversion;
    if n < |path| {
      var m := |path| - 1;
      AllowedBefore(t, f, path[..m], n);
      assert path[..m][..n] == path[..n];
    } else {
      assert path[..n] == path;
    }
  }

  lemma NearBefore(log: seq<Received>, path: seq<Pair>, n: nat)
    requires NearlyReceived(log, path) && n <= |log|
    ensures |log| == |path| && NearlyReceived(log[..n], path[..n])
  {
    hide Within;
  }

  lemma NothingDecided(t: Trellis, f: F.Framing, log: seq<Received>)
    requires f.p > 0
    ensures |TakeAll(t, f, log).decided| == Late(|log|)
  {
    hide TakeAll, TraceOf;
    WindowIsTrace(t, f, log);
  }

  /** What was sent and nearly received is decided on exactly, `DEPTH` 4D symbols late. */
  lemma {:induction false} DecidesSent(t: Trellis, f: F.Framing, log: seq<Received>, sent: seq<Pair>)
    requires f.p > 0 && NearlyReceived(log, sent) && Allowed(t, f, sent)
    ensures |log| == |sent| && TakeAll(t, f, log).decided == sent[..Late(|log|)]
    decreases |log|
  {
    hide BestPath, TakeAll, NearlyReceived, Allowed;
    NearBefore(log, sent, |log|);
    NothingDecided(t, f, log);
    if |log| > DEPTH {
      var n := |log| - 1;
      NearBefore(log, sent, n);
      AllowedBefore(t, f, sent, n);
      BestPathIsSent(t, f, log, sent);
      DecisionIsBest(t, f, log);
      DecidesSent(t, f, log[..n], sent[..n]);
      assert sent[..n][..Late(n)] == sent[..Late(n)];
      assert sent[..Late(n) + 1] == sent[..Late(n)] + [sent[Late(n)]];
    }
  }
}
