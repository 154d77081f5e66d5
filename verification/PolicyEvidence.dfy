/** What the planner's scores mean: on every graph a session recorded, the cost that one step
    of the model predicts is the average over the logged tool calls. */
module PolicyEvidence {
  import opened PolicyGraph
  import opened PolicyRecorder
  import Planner

  /** The logged calls of tool `a` out of state `s`. */
  predicate IsSample(c: Call, id: BenchState -> string, s: string, a: string) {
    id(c.pre) == s && c.tool == a
  }

  function Samples(log: seq<Call>, id: BenchState -> string, s: string, a: string): nat {
    if log == [] then 0
    else Samples(log[..|log| - 1], id, s, a) + (if IsSample(log[|log| - 1], id, s, a) then 1 else 0)
  }

  /** Their summed wall time. */
  function WallTime(log: seq<Call>, id: BenchState -> string, s: string, a: string): int {
    if log == [] then 0
    else WallTime(log[..|log| - 1], id, s, a) + (if IsSample(log[|log| - 1], id, s, a) then log[|log| - 1].wall else 0)
  }

  /** The summed cost `w` of where they led; a call that failed counts as staying. */
  function Aftermath(log: seq<Call>, id: BenchState -> string, s: string, a: string, w: string -> real): real {
    if log == [] then 0.0
    else
      var c := log[|log| - 1];
      Aftermath(log[..|log| - 1], id, s, a, w)
      + (if !IsSample(c, id, s, a) then 0.0 else if c.ok && id(c.post) != s then w(id(c.post)) else w(s))
  }

  // ---------------------------------------------------------------------
  // Linear readings of the counters
  // ---------------------------------------------------------------------

  /** A weight for successes by target, one for observations, one for wall time. */
  datatype Reading = Reading(success: string -> real, count: real, wall: real)

  ghost function OfEdge(r: Reading, e: Edge): real {
    Planner.Times(e.success as real, r.success(e.to)) + Planner.Times(e.count as real, r.count)
    + Planner.Times(e.wall as real, r.wall)
  }

  ghost function OfEdges(r: Reading, es: seq<Edge>, s: string, a: string): real {
    if es == [] then 0.0
    else
      var e := es[|es| - 1];
      OfEdges(r, es[..|es| - 1], s, a) + (if e.from == s && e.action == a then OfEdge(r, e) else 0.0)
  }

  ghost function OfCall(r: Reading, ok: bool, wall: int, to: string): real {
    (if ok then r.success(to) else 0.0) + r.count + Planner.Times(wall as real, r.wall)
  }

  ghost function OfCalls(r: Reading, log: seq<Call>, id: BenchState -> string, s: string, a: string): real {
    if log == [] then 0.0
    else
      var c := log[|log| - 1];
      OfCalls(r, log[..|log| - 1], id, s, a)
      + (if IsSample(c, id, s, a) then OfCall(r, c.ok, c.wall, id(c.post)) else 0.0)
  }

  lemma BumpedReading(r: Reading, e: Edge, ok: bool, wall: int)
    ensures OfEdge(r, Bumped(e, ok, wall)) == OfEdge(r, e) + OfCall(r, ok, wall, e.to)
    ensures e.count == e.success == e.wall == 0 ==> OfEdge(r, e) == 0.0
  {
    Scaled(e.success, if ok then 1 else 0, r.success(e.to));
    Scaled(e.count, 1, r.count);
    Scaled(e.wall, wall, r.wall);
  }

  lemma Scaled(m: int, n: int, x: real)
    ensures Planner.Times((m + n) as real, x) == Planner.Times(m as real, x) + Planner.Times(n as real, x)
    ensures Planner.Times(0.0, x) == 0.0 && Planner.Times(1.0, x) == x
  {
  }

  lemma {:induction false} ReplacedEdge(r: Reading, es: seq<Edge>, i: nat, e: Edge, s: string, a: string)
    requires i < |es| && KeyOf(e) == KeyOf(es[i])
    ensures OfEdges(r, es[i := e], s, a) == OfEdges(r, es, s, a)
              + (if e.from == s && e.action == a then OfEdge(r, e) - OfEdge(r, es[i]) else 0.0)
  {
    hide OfEdge;
    var n := |es| - 1;
    if i < n {
      ReplacedEdge(r, es[..n], i, e, s, a);
      assert es[i := e][..n] == es[..n][i := e];
    } else {
      assert es[i := e][..n] == es[..n];
    }
  }

  /** Recording a call adds its own share to the group of its state and tool. */
  lemma RecordedReading(r: Reading, es: seq<Edge>, k: Key, ok: bool, wall: int, s: string, a: string)
    ensures OfEdges(r, WithEdge(es, k, ok, wall), s, a) == OfEdges(r, es, s, a)
              + (if k.from == s && k.action == a then OfCall(r, ok, wall, k.to) else 0.0)
  {
    hide OfEdge, OfCall;
    var i := Find(es, k);
    if i < |es| {
      BumpedReading(r, es[i], ok, wall);
      ReplacedEdge(r, es, i, Bumped(es[i], ok, wall), s, a);
    } else {
      var e := Edge(k.from, k.action, k.to, 0, 0, 0);
      BumpedReading(r, e, ok, wall);
      assert (es + [Bumped(e, ok, wall)])[..|es|] == es;
    }
  }

  lemma StepReading(r: Reading, before: Session, step: Step, id: BenchState -> string, s: string, a: string)
    requires OfEdges(r, before.graph.edges, s, a) == OfCalls(r, before.log, id, s, a)
    ensures var z := Take(before, step, id); OfEdges(r, z.graph.edges, s, a) == OfCalls(r, z.log, id, s, a)
  {
    hide WithEdge, Visited, OfCall, OfEdges, ApplyOutcome;
    if step.Tool? {
      var c := CallOf(before.state, step.o);
      RecordedReading(r, before.graph.edges, CallKey(c, id), c.ok, c.wall, s, a);
      assert (before.log + [c])[..|before.log|] == before.log;
    }
  }

  /** Every linear reading of a recorded graph is that of its log. */
  lemma {:induction false} SessionReading(r: Reading, initial: BenchState, steps: seq<Step>, id: BenchState -> string,
                                          s: string, a: string)
    ensures var z := TakeAll(initial, steps, id);
            OfEdges(r, z.graph.edges, s, a) == OfCalls(r, z.log, id, s, a)
  {
    hide Take;
    if steps != [] {
      SessionReading(r, initial, steps[..|steps| - 1], id, s, a);
      StepReading(r, TakeAll(initial, steps[..|steps| - 1], id), steps[|steps| - 1], id, s, a);
    }
  }

  lemma ReadingStep(r: Reading, es: seq<Edge>, e: Edge, s: string, a: string)
    ensures OfEdges(r, es + [e], s, a)
         == OfEdges(r, es, s, a) + (if e.from == s && e.action == a then OfEdge(r, e) else 0.0)
  {
    hide OfEdge;
    assert (es + [e])[..|es|] == es;
  }

  lemma NothingRead(r: Reading, s: string, a: string)
    ensures OfEdges(r, EdgesFrom([], s), s, a) == OfEdges(r, [], s, a) == OfEdges(r, EdgesOf([], a), s, a)
  {
  }

  lemma ReadingFromStep(r: Reading, front: seq<Edge>, e: Edge, s: string, a: string)
    requires OfEdges(r, EdgesFrom(front, s), s, a) == OfEdges(r, front, s, a)
    ensures OfEdges(r, EdgesFrom(front + [e], s), s, a) == OfEdges(r, front + [e], s, a)
  {
    hide OfEdge, OfEdges, EdgesFrom;
    ReadingStep(r, front, e, s, a);
    EdgesFromJoin(front, [e], s);
    SelectedAlone(e, s);
    if e.from == s {
      ReadingStep(r, EdgesFrom(front, s), e, s, a);
    } else {
      assert EdgesFrom(front, s) + [] == EdgesFrom(front, s);
    }
  }

  lemma {:induction false} ReadingFrom(r: Reading, es: seq<Edge>, s: string, a: string)
    ensures OfEdges(r, EdgesFrom(es, s), s, a) == OfEdges(r, es, s, a)
  {
    hide OfEdges, EdgesFrom;
    if es == [] {
      NothingRead(r, s, a);
    } else {
      var front := es[..|es| - 1];
      ReadingFrom(r, front, s, a);
      ReadingFromStep(r, front, es[|es| - 1], s, a);
      assert es == front + [es[|es| - 1]];
    }
  }

  lemma ReadingOfStep(r: Reading, front: seq<Edge>, e: Edge, s: string, a: string)
    requires OfEdges(r, EdgesOf(front, a), s, a) == OfEdges(r, front, s, a)
    ensures OfEdges(r, EdgesOf(front + [e], a), s, a) == OfEdges(r, front + [e], s, a)
  {
    hide OfEdge, OfEdges, EdgesOf;
    ReadingStep(r, front, e, s, a);
    EdgesOfJoin(front, [e], a);
    SelectedAlone(e, a);
    if e.action == a {
      ReadingStep(r, EdgesOf(front, a), e, s, a);
    } else {
      assert EdgesOf(front, a) + [] == EdgesOf(front, a);
    }
  }

  lemma {:induction false} ReadingOf(r: Reading, es: seq<Edge>, s: string, a: string)
    ensures OfEdges(r, EdgesOf(es, a), s, a) == OfEdges(r, es, s, a)
  {
    hide OfEdges, EdgesOf;
    if es == [] {
      NothingRead(r, s, a);
    } else {
      var front := es[..|es| - 1];
      ReadingOf(r, front, s, a);
      ReadingOfStep(r, front, es[|es| - 1], s, a);
      assert es == front + [es[|es| - 1]];
    }
  }

  lemma GroupReading(r: Reading, g: Graph, s: string, a: string)
    ensures OfEdges(r, Group(g, s, a), s, a) == OfEdges(r, g.edges, s, a)
  {
    hide OfEdges;
    ReadingFrom(r, g.edges, s, a);
    ReadingOf(r, EdgesFrom(g.edges, s), s, a);
  }

  // ---------------------------------------------------------------------
  // The three readings that a score uses
  // ---------------------------------------------------------------------

  ghost predicate AllOf(es: seq<Edge>, s: string, a: string) {
    forall e :: e in es ==> e.from == s && e.action == a
  }

  function CountOnly(): Reading { Reading(_ => 0.0, 1.0, 0.0) }

  function WallOnly(): Reading { Reading(_ => 0.0, 0.0, 1.0) }

  /** What moving on gains over staying in `s`, on top of staying. */
  function Gains(w: string -> real, s: string): Reading {
    Reading(t => if t == s then 0.0 else w(t) - w(s), w(s), 0.0)
  }

  lemma {:induction false} CountsAndWalls(es: seq<Edge>, s: string, a: string)
    requires AllOf(es, s, a)
    ensures OfEdges(CountOnly(), es, s, a) == Count(es) as real && OfEdges(WallOnly(), es, s, a) == Wall(es) as real
  {
    if es != [] {
      assert es[|es| - 1] in es;
      CountsAndWalls(es[..|es| - 1], s, a);
    }
  }

  lemma {:induction false} LoggedCountsAndWalls(log: seq<Call>, id: BenchState -> string, s: string, a: string)
    ensures OfCalls(CountOnly(), log, id, s, a) == Samples(log, id, s, a) as real
    ensures OfCalls(WallOnly(), log, id, s, a) == WallTime(log, id, s, a) as real
  {
    if log != [] {
      LoggedCountsAndWalls(log[..|log| - 1], id, s, a);
    }
  }

  lemma {:induction false} LoggedGains(log: seq<Call>, id: BenchState -> string, s: string, a: string, w: string -> real)
    ensures OfCalls(Gains(w, s), log, id, s, a) == Aftermath(log, id, s, a, w)
  {
    if log != [] {
      LoggedGains(log[..|log| - 1], id, s, a, w);
    }
  }

  lemma ShareTimesCount(e: Edge, c: int, x: real)
    requires c > 0
    ensures Planner.Times(c as real, Planner.Times(Planner.Prob(e, c), x)) == Planner.Times(e.success as real, x)
    ensures Planner.Times(c as real, Planner.Prob(e, c)) == e.success as real
  {
    var p, n := Planner.Prob(e, c), c as real;
    assert n * p == e.success as real;
    assert n * (p * x) == (n * p) * x;
  }

  /** The expectation over a group, times its calls, is the reading of gains over it. */
  lemma {:induction false} ExpectedGains(es: seq<Edge>, c: int, s: string, a: string, w: string -> real)
    requires c > 0 && AllOf(es, s, a) && forall e :: e in es ==> e.success >= 0
    ensures Planner.Times(c as real, Planner.Expected(s, es, c, w) - Planner.Times(Planner.Mass(s, es, c), w(s)))
              + Planner.Times(Count(es) as real, w(s))
         == OfEdges(Gains(w, s), es, s, a)
  {
    if es != [] {
      var front, e := es[..|es| - 1], es[|es| - 1];
      assert e in es;
      ExpectedGains(front, c, s, a, w);
      GainStep(e, c, s, w, Planner.Expected(s, front, c, w), Planner.Mass(s, front, c), Count(front));
    }
  }

  /** What one more edge adds on both sides. */
  lemma GainStep(e: Edge, c: int, s: string, w: string -> real, expected: real, mass: real, count: int)
    requires c > 0 && e.success >= 0
    ensures var p := if Planner.Advances(s, e) then Planner.Prob(e, c) else 0.0;
            Planner.Times(c as real, expected + Planner.Times(p, w(e.to)) - Planner.Times(mass + p, w(s)))
            + Planner.Times((count + e.count) as real, w(s))
            == Planner.Times(c as real, expected - Planner.Times(mass, w(s))) + Planner.Times(count as real, w(s))
            + OfEdge(Gains(w, s), e)
  {
    var p := if Planner.Advances(s, e) then Planner.Prob(e, c) else 0.0;
    Shares(c as real, p, expected, mass, w(e.to), w(s));
    Scaled(count, e.count, w(s));
    assert Planner.Times(e.wall as real, 0.0) == 0.0 && Planner.Times(e.success as real, 0.0) == 0.0;
    if Planner.Advances(s, e) {
      ShareTimesCount(e, c, w(e.to) - w(s));
    }
  }

  lemma Shares(n: real, p: real, expected: real, mass: real, to: real, stay: real)
    ensures Planner.Times(n, expected + Planner.Times(p, to) - Planner.Times(mass + p, stay))
         == Planner.Times(n, expected - Planner.Times(mass, stay)) + Planner.Times(n, Planner.Times(p, to - stay))
    ensures Planner.Times(n, Planner.Times(0.0, to - stay)) == 0.0
  {
    assert p * to - (mass + p) * stay == p * (to - stay) - mass * stay;
    assert n * ((expected - mass * stay) + p * (to - stay)) == n * (expected - mass * stay) + n * (p * (to - stay));
  }

  // ---------------------------------------------------------------------
  // The law
  // ---------------------------------------------------------------------

  /** On every graph a session recorded, an action's counters are those of its logged calls. */
  lemma CountersAreSamples(initial: BenchState, steps: seq<Step>, id: BenchState -> string, s: string, a: string)
    ensures var z := TakeAll(initial, steps, id);
            && Count(Group(z.graph, s, a)) == Samples(z.log, id, s, a)
            && Wall(Group(z.graph, s, a)) == WallTime(z.log, id, s, a)
  {
    var z := TakeAll(initial, steps, id);
    var es := Group(z.graph, s, a);
    GroupMembers(z.graph, s, a);
    hide Group, TakeAll, OfCalls, OfEdges;
    SessionReading(CountOnly(), initial, steps, id, s, a);
    SessionReading(WallOnly(), initial, steps, id, s, a);
    GroupReading(CountOnly(), z.graph, s, a);
    GroupReading(WallOnly(), z.graph, s, a);
    CountsAndWalls(es, s, a);
    LoggedCountsAndWalls(z.log, id, s, a);
  }

  /** The calls' wall time, or the floor for each of them. */
  function FlooredTotal(wall: int, n: real, minEdge: real): (t: real)
    ensures t >= wall as real && t >= minEdge * n && (t == wall as real || t == minEdge * n)
  {
    if wall as real > minEdge * n then wall as real else minEdge * n
  }

  /** One step of the model is the average of the log: times the number of logged calls, its
      cost is what those calls took, or the floor for each, plus what `w` charges where each
      of them led, a failed call counting as staying. */
  lemma BackupIsEmpirical(initial: BenchState, steps: seq<Step>, id: BenchState -> string, s: string, a: string,
                          w: string -> real, minEdge: real)
    requires Samples(TakeAll(initial, steps, id).log, id, s, a) > 0
    ensures var z := TakeAll(initial, steps, id);
            var n := Samples(z.log, id, s, a);
            && Count(Group(z.graph, s, a)) == n
            && Planner.Times(Planner.Backup(s, Group(z.graph, s, a), w, minEdge), n as real)
               == FlooredTotal(WallTime(z.log, id, s, a), n as real, minEdge) + Aftermath(z.log, id, s, a, w)
  {
    var z := TakeAll(initial, steps, id);
    var es := Group(z.graph, s, a);
    hide Group, TakeAll, OfCalls, OfEdges, Count, Wall, Samples, WallTime, Aftermath, FlooredTotal,
      Planner.Backup, Planner.Mass, Planner.Expected, Planner.Times, Planner.Clamp, AllOf;
    CountersAreSamples(initial, steps, id, s, a);
    GroupIsSane(initial, steps, id, s, a);
    SessionReading(Gains(w, s), initial, steps, id, s, a);
    GroupReading(Gains(w, s), z.graph, s, a);
    LoggedGains(z.log, id, s, a, w);
    hide Gains;
    BackupIsReading(s, es, a, w, minEdge);
  }

  lemma GroupIsSane(initial: BenchState, steps: seq<Step>, id: BenchState -> string, s: string, a: string)
    ensures var es := Group(TakeAll(initial, steps, id).graph, s, a);
            && AllOf(es, s, a) && (forall e :: e in es ==> e.success >= 0)
            && (Count(es) > 0 ==> Planner.Clamp(Planner.Mass(s, es, Count(es))) == Planner.Mass(s, es, Count(es)))
  {
    var z := TakeAll(initial, steps, id);
    GroupMembers(z.graph, s, a);
    SessionConserved(initial, steps, id);
    hide Group, TakeAll;
    assert SaneCounts(z.graph.edges);
    if Count(Group(z.graph, s, a)) > 0 {
      SessionNeedsNoClamp(initial, steps, id, s, a);
    }
  }

  lemma BackupIsReading(s: string, es: seq<Edge>, a: string, w: string -> real, minEdge: real)
    requires Count(es) > 0 && AllOf(es, s, a) && forall e :: e in es ==> e.success >= 0
    requires Planner.Clamp(Planner.Mass(s, es, Count(es))) == Planner.Mass(s, es, Count(es))
    ensures Planner.Times(Planner.Backup(s, es, w, minEdge), Count(es) as real)
         == FlooredTotal(Wall(es), Count(es) as real, minEdge) + OfEdges(Gains(w, s), es, s, a)
  {
    hide Planner.StepCost, Planner.Expected, Planner.Mass, Planner.Backup, Planner.Times, Planner.Clamp, FlooredTotal,
      Wall, Count, OfEdges, Gains, AllOf;
    var c := Count(es);
    var cost, expected, mass := Planner.StepCost(es, minEdge), Planner.Expected(s, es, c, w), Planner.Mass(s, es, c);
    BackupSplits(s, es, w, minEdge);
    CostTimesCount(es, minEdge);
    Distributed(c as real, cost, expected, mass, w(s));
    ExpectedGains(es, c, s, a, w);
  }

  lemma BackupSplits(s: string, es: seq<Edge>, w: string -> real, minEdge: real)
    requires Count(es) > 0
    requires Planner.Clamp(Planner.Mass(s, es, Count(es))) == Planner.Mass(s, es, Count(es))
    ensures Planner.Backup(s, es, w, minEdge)
         == Planner.StepCost(es, minEdge) + Planner.Expected(s, es, Count(es), w)
            + Planner.Times(1.0 - Planner.Mass(s, es, Count(es)), w(s))
  {
    hide Planner.StepCost, Planner.Expected, Planner.Mass, Planner.Times, Planner.Clamp;
  }

  lemma CostTimesCount(es: seq<Edge>, minEdge: real)
    requires Count(es) > 0
    ensures Planner.Times(Planner.StepCost(es, minEdge), Count(es) as real)
         == FlooredTotal(Wall(es), Count(es) as real, minEdge)
  {
    var n, spent := Count(es) as real, Wall(es) as real;
    Planner.MeanTimesCount(spent, n, minEdge);
    if spent / n > minEdge {
      assert (spent / n - minEdge) * n > 0.0;
    }
  }

  lemma Distributed(n: real, cost: real, expected: real, mass: real, stay: real)
    ensures Planner.Times(cost + expected + Planner.Times(1.0 - mass, stay), n)
         == Planner.Times(cost, n) + Planner.Times(n, expected - Planner.Times(mass, stay)) + Planner.Times(n, stay)
  {
    assert (1.0 - mass) * stay == stay - mass * stay;
    assert (cost + (expected - mass * stay) + stay) * n == cost * n + n * (expected - mass * stay) + n * stay;
  }
}
