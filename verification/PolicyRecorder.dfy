/** The belief fold and the transition recorder of nff/tools/policy.py. State ids come
    from an arbitrary `id` function, so nothing depends on the hash being collision-free. */
module PolicyRecorder {
  import opened Wrappers
  import opened PolicyGraph
  import Planner

  datatype BenchState = BenchState(device: string, fault: string)

  const NO_DEVICE := "none"
  const COMPILE_FAIL := "compile:fail"
  const FLASH_FAIL := "flash:fail"
  const CRASH := "crash:"

  /** What `_parse_outcome` extracts from a tool result. */
  datatype Outcome = Outcome(ok: bool, crashClass: Option<string>, board: Option<string>, serialClean: bool)

  predicate IsActuation(tool: string) {
    tool in {"compile", "flash", "reset_device", "serial_write", "ota_deploy"}
  }

  function ApplyOutcome(s: BenchState, tool: string, o: Outcome): BenchState {
    var device :=
      if o.board.None? then s.device else if o.board.value != "" then o.board.value else NO_DEVICE;
    var fault :=
      if o.crashClass.Some? && o.crashClass.value != "" then CRASH + o.crashClass.value
      else if tool == "compile" then
        if !o.ok then COMPILE_FAIL else if s.fault == COMPILE_FAIL then HEALTHY else s.fault
      else if tool == "flash" then
        if o.ok then HEALTHY else FLASH_FAIL
      else if tool == "serial_read" && o.serialClean && CRASH <= s.fault then HEALTHY
      else s.fault;
    BenchState(device, fault)
  }

  /** A crash belief is cleared only by a successful flash or a clean serial capture,
      unless the same call establishes another fault. */
  lemma CrashClearedOnlyByEvidence(s: BenchState, tool: string, o: Outcome)
    requires CRASH <= s.fault
    ensures ApplyOutcome(s, tool, o).fault == HEALTHY <==>
              && (o.crashClass.None? || o.crashClass.value == "")
              && ((tool == "flash" && o.ok) || (tool == "serial_read" && o.serialClean))
  {
    assert CRASH[0] == 'c' && HEALTHY[0] == 'n' && COMPILE_FAIL[1] == 'o' && CRASH[1] == 'r' && FLASH_FAIL[0] == 'f';
    assert s.fault[..6] == CRASH;
    assert s.fault[0] == 'c' && s.fault[1] == 'r';
    if o.crashClass.Some? {
      assert (CRASH + o.crashClass.value)[0] == 'c';
    }
  }

  /** Which device the belief names afterwards, and which fault: a crash class in the result
      wins; failing compiles and flashes set their own fault, and only a successful flash, or
      the success of what failed, or a clean capture after a crash, brings back health. */
  lemma BeliefAfter(s: BenchState, tool: string, o: Outcome)
    ensures var r := ApplyOutcome(s, tool, o);
            var crashed := o.crashClass.Some? && o.crashClass.value != "";
            && r.device == (match o.board case None => s.device case Some(b) => if b == "" then "none" else b)
            && (crashed ==> r.fault == "crash:" + o.crashClass.value)
            && (!crashed ==>
                  && r.fault in [s.fault, "none", "compile:fail", "flash:fail"]
                  && (r.fault == "compile:fail" <==>
                        (tool == "compile" && !o.ok) || (s.fault == "compile:fail" && tool != "compile" && tool != "flash"))
                  && (r.fault == "flash:fail" <==>
                        (tool == "flash" && !o.ok)
                        || (s.fault == "flash:fail" && tool != "flash" && (tool == "compile" ==> o.ok)))
                  && (r.fault == "none" <==>
                        || (tool == "flash" && o.ok)
                        || (tool == "compile" && o.ok && s.fault in ["none", "compile:fail"])
                        || (tool == "serial_read" && o.serialClean && "crash:" <= s.fault)
                        || (s.fault == "none" && tool != "flash" && (tool == "compile" ==> o.ok))))
  {
    assert CRASH[0] == 'c' && CRASH[1] == 'r' && |CRASH| == 6;
    assert HEALTHY[0] == 'n' && COMPILE_FAIL[1] == 'o' && FLASH_FAIL[0] == 'f';
    if CRASH <= s.fault {
      assert s.fault[0] == CRASH[0] && s.fault[1] == CRASH[1];
    }
  }

  // ---------------------------------------------------------------------
  // record_transition as a function of the graph
  // ---------------------------------------------------------------------

  datatype Key = Key(from: string, action: string, to: string)

  function KeyOf(e: Edge): Key {
    Key(e.from, e.action, e.to)
  }

  /** A pure observation that changed nothing and succeeded records nothing. */
  predicate Skipped(from: string, tool: string, ok: bool, to: string) {
    from == to && !IsActuation(tool) && ok
  }

  function Visited(nodes: map<string, Node>, id: string, s: BenchState): map<string, Node> {
    if id in nodes then nodes[id := nodes[id].(visits := nodes[id].visits + 1)]
    else nodes[id := Node(s.device, s.fault, 1)]
  }

  function Bumped(e: Edge, ok: bool, wall: int): Edge {
    e.(count := e.count + 1, success := e.success + (if ok then 1 else 0), wall := e.wall + wall)
  }

  /** Index of the first edge with the key, or |es|. */
  function Find(es: seq<Edge>, k: Key): (i: nat)
    ensures i <= |es|
    ensures i < |es| ==> KeyOf(es[i]) == k
    ensures forall j :: 0 <= j < i ==> KeyOf(es[j]) != k
  {
    if es == [] then 0
    else if KeyOf(es[0]) == k then 0
    else 1 + Find(es[1..], k)
  }

  function WithEdge(es: seq<Edge>, k: Key, ok: bool, wall: int): seq<Edge> {
    var i := Find(es, k);
    if i < |es| then es[i := Bumped(es[i], ok, wall)]
    else es + [Bumped(Edge(k.from, k.action, k.to, 0, 0, 0), ok, wall)]
  }

  /** One tool call as the recorder sees it. */
  datatype Call = Call(pre: BenchState, tool: string, ok: bool, wall: int, post: BenchState)

  function CallKey(c: Call, id: BenchState -> string): Key {
    Key(id(c.pre), c.tool, id(c.post))
  }

  predicate IsRecorded(c: Call, id: BenchState -> string) {
    !Skipped(id(c.pre), c.tool, c.ok, id(c.post))
  }

  /** A call is recorded exactly when it changed the state, failed, or acted on the bench. */
  lemma RecordedIff(c: Call, id: BenchState -> string)
    ensures IsRecorded(c, id) <==>
              || id(c.pre) != id(c.post) || !c.ok
              || c.tool in ["compile", "flash", "reset_device", "serial_write", "ota_deploy"]
  {
  }

  function Recorded(g: Graph, c: Call, id: BenchState -> string): Graph {
    if !IsRecorded(c, id) then g
    else Graph(Visited(Visited(g.nodes, id(c.pre), c.pre), id(c.post), c.post),
               WithEdge(g.edges, CallKey(c, id), c.ok, c.wall))
  }

  // ---------------------------------------------------------------------
  // Conservation
  // ---------------------------------------------------------------------

  function Total(es: seq<Edge>, f: Edge -> int): int {
    if es == [] then 0 else f(es[0]) + Total(es[1..], f)
  }

  lemma {:induction false} TotalAppend(es: seq<Edge>, e: Edge, f: Edge -> int)
    ensures Total(es + [e], f) == Total(es, f) + f(e)
  {
    if es != [] {
      assert (es + [e])[1..] == es[1..] + [e];
      TotalAppend(es[1..], e, f);
    } else {
      assert es + [e] == [e];
    }
  }

  lemma {:induction false} TotalUpdate(es: seq<Edge>, i: nat, e: Edge, f: Edge -> int)
    requires i < |es|
    ensures Total(es[i := e], f) == Total(es, f) - f(es[i]) + f(e)
  {
    if i > 0 {
      assert es[i := e][1..] == es[1..][i - 1 := e];
      TotalUpdate(es[1..], i - 1, e, f);
    } else {
      assert es[i := e][1..] == es[1..];
    }
  }

  function OutOf(n: string): Edge -> int {
    (e: Edge) => if e.from == n then e.count else 0
  }

  function InTo(n: string): Edge -> int {
    (e: Edge) => if e.to == n then e.count else 0
  }

  function WallOf(): Edge -> int {
    (e: Edge) => e.wall
  }

  /** How much recording one call adds to a total that is linear in the counters. */
  lemma WithEdgeAdds(es: seq<Edge>, k: Key, ok: bool, wall: int, n: string)
    ensures Total(WithEdge(es, k, ok, wall), OutOf(n)) == Total(es, OutOf(n)) + (if k.from == n then 1 else 0)
    ensures Total(WithEdge(es, k, ok, wall), InTo(n)) == Total(es, InTo(n)) + (if k.to == n then 1 else 0)
    ensures Total(WithEdge(es, k, ok, wall), WallOf()) == Total(es, WallOf()) + wall
  {
    var i := Find(es, k);
    if i < |es| {
      var e := Bumped(es[i], ok, wall);
      TotalUpdate(es, i, e, OutOf(n));
      TotalUpdate(es, i, e, InTo(n));
      TotalUpdate(es, i, e, WallOf());
    } else {
      var e := Bumped(Edge(k.from, k.action, k.to, 0, 0, 0), ok, wall);
      TotalAppend(es, e, OutOf(n));
      TotalAppend(es, e, InTo(n));
      TotalAppend(es, e, WallOf());
    }
  }

  /** What the log of recorded calls says about one edge key: observations,
      successes and summed wall time. */
  datatype Tally = Tally(count: int, success: int, wall: int)

  function TallyOf(log: seq<Call>, k: Key, id: BenchState -> string): Tally {
    if log == [] then Tally(0, 0, 0)
    else
      var c := log[|log| - 1];
      var t := TallyOf(log[..|log| - 1], k, id);
      if CallKey(c, id) == k then Tally(t.count + 1, t.success + (if c.ok then 1 else 0), t.wall + c.wall) else t
  }

  function TotalWall(log: seq<Call>): int {
    if log == [] then 0 else TotalWall(log[..|log| - 1]) + log[|log| - 1].wall
  }

  function EdgeTally(es: seq<Edge>, k: Key): Tally {
    var i := Find(es, k);
    if i < |es| then Tally(es[i].count, es[i].success, es[i].wall) else Tally(0, 0, 0)
  }

  function Visits(g: Graph, n: string): int {
    if n in g.nodes then g.nodes[n].visits else 0
  }

  ghost predicate UniqueKeys(es: seq<Edge>) {
    forall i, j :: 0 <= i < j < |es| ==> KeyOf(es[i]) != KeyOf(es[j])
  }

  /** The graph is exactly the bookkeeping of the recorded calls. */
  ghost predicate Conserved(g: Graph, log: seq<Call>, id: BenchState -> string) {
    && UniqueKeys(g.edges)
    && SaneCounts(g.edges)
    && (forall e :: e in g.edges ==> e.from in g.nodes && e.to in g.nodes)
    && (forall n :: Visits(g, n) == Total(g.edges, OutOf(n)) + Total(g.edges, InTo(n)))
    && Total(g.edges, WallOf()) == TotalWall(log)
    && (forall k :: EdgeTally(g.edges, k) == TallyOf(log, k, id))
  }

  lemma EmptyConserved(id: BenchState -> string)
    ensures Conserved(EMPTY_GRAPH, [], id)
  {
    assert forall n :: Visits(EMPTY_GRAPH, n) == 0;
  }

  lemma WithEdgeShape(es: seq<Edge>, k: Key, ok: bool, wall: int)
    requires UniqueKeys(es) && SaneCounts(es)
    ensures UniqueKeys(WithEdge(es, k, ok, wall)) && SaneCounts(WithEdge(es, k, ok, wall))
    ensures forall e :: e in WithEdge(es, k, ok, wall) ==> KeyOf(e) == k || exists e' :: e' in es && KeyOf(e') == KeyOf(e)
  {
    var r := WithEdge(es, k, ok, wall);
    var i := Find(es, k);
    forall e | e in r
      ensures 0 <= e.success <= e.count && 0 < e.count
      ensures KeyOf(e) == k || exists e' :: e' in es && KeyOf(e') == KeyOf(e)
    {
      var j :| 0 <= j < |r| && r[j] == e;
      if j < |es| {
        assert es[j] in es;
      }
    }
  }

  lemma FindUnique(es: seq<Edge>, i: nat)
    requires UniqueKeys(es) && i < |es|
    ensures Find(es, KeyOf(es[i])) == i
  {
  }

  lemma WithEdgeTally(es: seq<Edge>, k: Key, ok: bool, wall: int, k': Key)
    requires UniqueKeys(es) && SaneCounts(es)
    ensures var t := EdgeTally(es, k');
            EdgeTally(WithEdge(es, k, ok, wall), k')
              == if k' == k then Tally(t.count + 1, t.success + (if ok then 1 else 0), t.wall + wall) else t
  {
    WithEdgeShape(es, k, ok, wall);
    var r := WithEdge(es, k, ok, wall);
    var i, i' := Find(es, k), Find(es, k');
    if i < |es| {
      FindUnique(r, i);
      if i' < |es| {
        FindUnique(r, i');
      }
    } else {
      FindUnique(r, |es|);
      if i' < |es| {
        FindUnique(r, i');
      }
    }
  }

  lemma VisitsKept(g: Graph, c: Call, id: BenchState -> string, n: string)
    requires IsRecorded(c, id)
    requires Visits(g, n) == Total(g.edges, OutOf(n)) + Total(g.edges, InTo(n))
    ensures var g' := Recorded(g, c, id);
            Visits(g', n) == Total(g'.edges, OutOf(n)) + Total(g'.edges, InTo(n))
  {
    hide Total, OutOf, InTo;
    WithEdgeAdds(g.edges, CallKey(c, id), c.ok, c.wall, n);
  }

  lemma EndpointsKept(g: Graph, c: Call, id: BenchState -> string)
    requires UniqueKeys(g.edges) && SaneCounts(g.edges)
    requires forall e :: e in g.edges ==> e.from in g.nodes && e.to in g.nodes
    ensures var g' := Recorded(g, c, id);
            forall e :: e in g'.edges ==> e.from in g'.nodes && e.to in g'.nodes
  {
    hide WithEdge;
    var k := CallKey(c, id);
    WithEdgeShape(g.edges, k, c.ok, c.wall);
    var g' := Recorded(g, c, id);
    forall e | e in g'.edges ensures e.from in g'.nodes && e.to in g'.nodes {
      if IsRecorded(c, id) && KeyOf(e) != k {
        var e' :| e' in g.edges && KeyOf(e') == KeyOf(e);
      }
    }
  }

  lemma TallyKept(g: Graph, log: seq<Call>, c: Call, id: BenchState -> string, k: Key)
    requires IsRecorded(c, id) && UniqueKeys(g.edges) && SaneCounts(g.edges)
    requires EdgeTally(g.edges, k) == TallyOf(log, k, id)
    ensures EdgeTally(Recorded(g, c, id).edges, k) == TallyOf(log + [c], k, id)
  {
    hide EdgeTally, WithEdge;
    assert (log + [c])[..|log|] == log;
    WithEdgeTally(g.edges, CallKey(c, id), c.ok, c.wall, k);
  }

  /** Recording one call keeps the books. */
  lemma RecordKeepsConserved(g: Graph, log: seq<Call>, c: Call, id: BenchState -> string)
    requires Conserved(g, log, id) && IsRecorded(c, id)
    ensures Conserved(Recorded(g, c, id), log + [c], id)
  {
    hide Visits, Total, EdgeTally, TallyOf, WithEdge, Visited;
    var g' := Recorded(g, c, id);
    WithEdgeShape(g.edges, CallKey(c, id), c.ok, c.wall);
    EndpointsKept(g, c, id);
    forall n ensures Visits(g', n) == Total(g'.edges, OutOf(n)) + Total(g'.edges, InTo(n)) {
      VisitsKept(g, c, id, n);
    }
    assert (log + [c])[..|log|] == log;
    WithEdgeAdds(g.edges, CallKey(c, id), c.ok, c.wall, "");
    forall k ensures EdgeTally(g'.edges, k) == TallyOf(log + [c], k, id) {
      TallyKept(g, log, c, id, k);
    }
  }

  // ---------------------------------------------------------------------
  // Whole sessions
  // ---------------------------------------------------------------------

  /** In-count minus out-count: where the bench is minus where it started. */
  ghost predicate Balanced(g: Graph, start: string, current: string) {
    forall n :: Total(g.edges, InTo(n)) - Total(g.edges, OutOf(n))
                == (if n == current then 1 else 0) - (if n == start then 1 else 0)
  }

  lemma RecordKeepsBalance(g: Graph, start: string, c: Call, id: BenchState -> string)
    requires Balanced(g, start, id(c.pre))
    ensures Balanced(Recorded(g, c, id), start, id(c.post))
  {
    hide Total, OutOf, InTo, WithEdge;
    if IsRecorded(c, id) {
      forall n ensures var es := Recorded(g, c, id).edges;
                       Total(es, InTo(n)) - Total(es, OutOf(n))
                         == (if n == id(c.post) then 1 else 0) - (if n == start then 1 else 0)
      {
        WithEdgeAdds(g.edges, CallKey(c, id), c.ok, c.wall, n);
        assert Total(g.edges, InTo(n)) - Total(g.edges, OutOf(n))
            == (if n == id(c.pre) then 1 else 0) - (if n == start then 1 else 0);
      }
    }
  }

  datatype Observation = Observation(tool: string, outcome: Outcome, wall: int)

  /** A tapped tool call whose graph write may fail, or a restart of the server, which keeps
      the stored graph and forgets the belief. */
  datatype Step = Tool(o: Observation, saveOk: bool) | Restart(initial: BenchState)

  datatype Session = Session(state: BenchState, graph: Graph, log: seq<Call>)

  function CallOf(s: BenchState, o: Observation): Call {
    Call(s, o.tool, o.outcome.ok, o.wall, ApplyOutcome(s, o.tool, o.outcome))
  }

  /** One tapped tool call; a failed write loses this call's edge but not the belief. */
  function Observe(s: Session, o: Observation, saveOk: bool, id: BenchState -> string): Session {
    var c := CallOf(s.state, o);
    if IsRecorded(c, id) && saveOk then Session(c.post, Recorded(s.graph, c, id), s.log + [c])
    else s.(state := c.post)
  }

  function Take(s: Session, step: Step, id: BenchState -> string): Session {
    match step
    case Tool(o, saveOk) => Observe(s, o, saveOk, id)
    case Restart(initial) => s.(state := initial)
  }

  function TakeAll(initial: BenchState, steps: seq<Step>, id: BenchState -> string): Session {
    if steps == [] then Session(initial, EMPTY_GRAPH, [])
    else Take(TakeAll(initial, steps[..|steps| - 1], id), steps[|steps| - 1], id)
  }

  /** The belief follows every tool call; the log gains the call exactly when it is to be
      recorded and its write does not fail; a restart only resets the belief. */
  lemma StepLogs(s: Session, step: Step, id: BenchState -> string)
    ensures var z := Take(s, step, id);
            match step
            case Restart(initial) => z == Session(initial, s.graph, s.log)
            case Tool(o, saveOk) =>
              var c := Call(s.state, o.tool, o.outcome.ok, o.wall, z.state);
              && z.state == ApplyOutcome(s.state, o.tool, o.outcome)
              && (saveOk && IsRecorded(c, id) ==> z.log == s.log + [c])
              && (!(saveOk && IsRecorded(c, id)) ==> z.log == s.log && z.graph == s.graph)
  {
    hide ApplyOutcome, Recorded, IsRecorded;
  }

  /** A session starts with nothing and takes its steps one after the other. */
  lemma StepsInOrder(initial: BenchState, steps: seq<Step>, step: Step, id: BenchState -> string)
    ensures TakeAll(initial, [], id) == Session(initial, Graph(map[], []), [])
    ensures TakeAll(initial, steps + [step], id) == Take(TakeAll(initial, steps, id), step, id)
  {
    hide Take;
    assert (steps + [step])[..|steps|] == steps;
  }

  /** The state `b` with id `n` occurs in the log. */
  ghost predicate Occurs(log: seq<Call>, id: BenchState -> string, n: string, b: BenchState) {
    id(b) == n && exists c :: c in log && (c.pre == b || c.post == b)
  }

  lemma VisitedNodes(g: Graph, log: seq<Call>, c: Call, id: BenchState -> string, n: string)
    requires IsRecorded(c, id) && n in Recorded(g, c, id).nodes
    requires n in g.nodes ==> exists b :: Occurs(log, id, n, b) && g.nodes[n].device == b.device && g.nodes[n].fault == b.fault
    ensures var d := Recorded(g, c, id).nodes[n];
            exists b :: Occurs(log + [c], id, n, b) && d.device == b.device && d.fault == b.fault
  {
    hide WithEdge, IsRecorded;
    if n in g.nodes {
      var b :| Occurs(log, id, n, b) && g.nodes[n].device == b.device && g.nodes[n].fault == b.fault;
      assert Occurs(log + [c], id, n, b);
    } else {
      assert c in log + [c];
      assert n == id(c.pre) ==> Occurs(log + [c], id, n, c.pre);
      assert n == id(c.post) ==> Occurs(log + [c], id, n, c.post);
    }
  }

  /** Every node describes a state of the log that has its id. */
  lemma {:induction false} NodesDescribeStates(initial: BenchState, steps: seq<Step>, id: BenchState -> string, n: string)
    requires n in TakeAll(initial, steps, id).graph.nodes
    ensures var z := TakeAll(initial, steps, id);
            exists b :: Occurs(z.log, id, n, b) && z.graph.nodes[n].device == b.device && z.graph.nodes[n].fault == b.fault
  {
    if steps != [] {
      hide Recorded, IsRecorded, ApplyOutcome, Occurs;
      var before := TakeAll(initial, steps[..|steps| - 1], id);
      if n in before.graph.nodes {
        NodesDescribeStates(initial, steps[..|steps| - 1], id, n);
      }
      match steps[|steps| - 1]
      case Tool(o, saveOk) =>
        var c := CallOf(before.state, o);
        if IsRecorded(c, id) && saveOk {
          VisitedNodes(before.graph, before.log, c, id, n);
        }
      case Restart(_) =>
    }
  }

  /** From the empty graph, after any sequence of tool calls, failed writes and restarts, the
      graph is the exact ledger of the recorded calls. */
  lemma {:induction false} SessionConserved(initial: BenchState, steps: seq<Step>, id: BenchState -> string)
    ensures var s := TakeAll(initial, steps, id); Conserved(s.graph, s.log, id)
  {
    if steps == [] {
      EmptyConserved(id);
    } else {
      hide Conserved, Recorded, IsRecorded;
      var before := TakeAll(initial, steps[..|steps| - 1], id);
      SessionConserved(initial, steps[..|steps| - 1], id);
      match steps[|steps| - 1]
      case Tool(o, _) =>
        var c := CallOf(before.state, o);
        if IsRecorded(c, id) {
          RecordKeepsConserved(before.graph, before.log, c, id);
        }
      case Restart(_) =>
    }
  }

  /** Without failed writes and restarts the graph's flow leads from the first state to the
      current one. */
  lemma {:induction false} SessionBalanced(initial: BenchState, steps: seq<Step>, id: BenchState -> string)
    requires forall step :: step in steps ==> step.Tool? && step.saveOk
    ensures var s := TakeAll(initial, steps, id); Balanced(s.graph, id(initial), id(s.state))
  {
    if steps != [] {
      hide Balanced, Recorded, IsRecorded;
      var n := |steps| - 1;
      var before := TakeAll(initial, steps[..n], id);
      SessionBalanced(initial, steps[..n], id);
      assert steps[n] in steps;
      var c := CallOf(before.state, steps[n].o);
      RecordKeepsBalance(before.graph, id(initial), c, id);
      SkippedLeavesGraph(before.graph, c, id);
    }
  }

  lemma SkippedLeavesGraph(g: Graph, c: Call, id: BenchState -> string)
    ensures !IsRecorded(c, id) ==> Recorded(g, c, id) == g
  {
  }

  /** Hence the planner's clamp is the identity on every recorded graph. */
  lemma SessionNeedsNoClamp(initial: BenchState, steps: seq<Step>, id: BenchState -> string, s: string, a: string)
    requires Count(Group(TakeAll(initial, steps, id).graph, s, a)) > 0
    ensures var es := Group(TakeAll(initial, steps, id).graph, s, a);
            Planner.Clamp(Planner.Mass(s, es, Count(es))) == Planner.Mass(s, es, Count(es))
  {
    hide Group, Planner.Mass;
    SessionConserved(initial, steps, id);
    Planner.ClampNeverActs(TakeAll(initial, steps, id).graph, s, a);
  }

  lemma WithEdgeTargets(es: seq<Edge>, k: Key, ok: bool, wall: int)
    ensures forall e :: e in WithEdge(es, k, ok, wall) ==> e.to == k.to || exists x :: x in es && x.to == e.to
  {
    var r, i := WithEdge(es, k, ok, wall), Find(es, k);
    forall e | e in r ensures e.to == k.to || exists x :: x in es && x.to == e.to {
      var j :| 0 <= j < |r| && r[j] == e;
      if j < |es| {
        assert es[j] in es;
      }
    }
  }

  /** The recorder never writes an edge to the empty id, no state having it. */
  lemma {:induction false} SessionHasNoBlanks(initial: BenchState, steps: seq<Step>, id: BenchState -> string)
    requires forall b :: id(b) != ""
    ensures Planner.NoBlankTargets(TakeAll(initial, steps, id).graph)
  {
    if steps != [] {
      hide WithEdge, Visited;
      var before := TakeAll(initial, steps[..|steps| - 1], id);
      SessionHasNoBlanks(initial, steps[..|steps| - 1], id);
      match steps[|steps| - 1]
      case Tool(o, _) =>
        var c := CallOf(before.state, o);
        WithEdgeTargets(before.graph.edges, CallKey(c, id), c.ok, c.wall);
      case Restart(_) =>
    }
  }

  /** Hence every plan on a recorded graph that is below the cap ends at a goal or a revisit. */
  lemma SessionPlansConclude(initial: BenchState, steps: seq<Step>, id: BenchState -> string, start: string,
                             maxIters: nat, minEdge: real, maxPathLen: nat, plan: Planner.Plan, table: Planner.Table)
    requires forall b :: id(b) != ""
    requires Planner.Answers(TakeAll(initial, steps, id).graph, start, maxIters, minEdge, maxPathLen, plan, table)
    requires plan.Planned? && |plan.path| < maxPathLen
    ensures Planner.Concluded(TakeAll(initial, steps, id).graph, start, plan.path)
  {
    hide Planner.Answers, Planner.NoBlankTargets, Planner.Concluded;
    SessionHasNoBlanks(initial, steps, id);
    Planner.PlansConclude(TakeAll(initial, steps, id).graph, start, maxIters, minEdge, maxPathLen, plan, table);
  }

  // ---------------------------------------------------------------------
  // The recorder and the live tap, in place
  // ---------------------------------------------------------------------

  /** The graph dictionary that `record_transition` updates. */
  class GraphStore {
    var nodes: map<string, Node>
    var edges: seq<Edge>

    constructor ()
      ensures Contents() == EMPTY_GRAPH
    {
      nodes, edges := map[], [];
    }

    function Contents(): Graph
      reads this
    {
      Graph(nodes, edges)
    }

    method Visit(id: string, s: BenchState)
      modifies this
      ensures nodes == Visited(old(nodes), id, s) && edges == old(edges)
    {
      if id !in nodes {
        nodes := nodes[id := Node(s.device, s.fault, 1)];
      } else {
        nodes := nodes[id := nodes[id].(visits := nodes[id].visits + 1)];
      }
    }

    method RecordTransition(c: Call, id: BenchState -> string) returns (recorded: bool)
      modifies this
      ensures Contents() == Recorded(old(Contents()), c, id)
      ensures recorded == IsRecorded(c, id)
    {
      var from, to := id(c.pre), id(c.post);
      if from == to && !IsActuation(c.tool) && c.ok {
        return false;
      }
      Visit(from, c.pre);
      Visit(to, c.post);
      var k := Key(from, c.tool, to);
      var i := 0;
      while i < |edges| && KeyOf(edges[i]) != k
        invariant i <= |edges|
        invariant forall j :: 0 <= j < i ==> KeyOf(edges[j]) != k
      {
        i := i + 1;
      }
      FindIs(edges, k, i);
      if i < |edges| {
        var e := edges[i];
        edges := edges[i := e.(count := e.count + 1, success := e.success + (if c.ok then 1 else 0), wall := e.wall + c.wall)];
      } else {
        edges := edges + [Edge(from, c.tool, to, 1, if c.ok then 1 else 0, c.wall)];
      }
      return true;
    }
  }

  lemma FindIs(es: seq<Edge>, k: Key, i: nat)
    requires i <= |es| && forall j :: 0 <= j < i ==> KeyOf(es[j]) != k
    requires i < |es| ==> KeyOf(es[i]) == k
    ensures Find(es, k) == i
  {
  }

  const MAX_ITERS := 1000
  const EPSILON := 0.001
  const MIN_EDGE_COST := 1.0
  const MAX_PATH_LEN := 32

  /** `render_directive` says something. */
  predicate IsAdvice(plan: Planner.Plan, minSupport: int) {
    plan.Planned? && plan.path != [] && plan.support >= minSupport
  }

  /** The module-global belief together with the persisted graph. */
  class Tap {
    var state: BenchState
    const store: GraphStore
    ghost var log: seq<Call>

    constructor (initial: BenchState)
      ensures state == initial && log == [] && fresh(store) && store.Contents() == EMPTY_GRAPH
    {
      state, log := initial, [];
      store := new GraphStore();
    }

    ghost function Snapshot(): Session
      reads this, store
    {
      Session(state, store.Contents(), log)
    }

    /** One completed tool call. Advice is given exactly on entering a fault, after a
        write that was skipped or succeeded, when the plan is concrete and supported. */
    method ObserveTool(o: Observation, id: BenchState -> string, minSupport: int, saveOk: bool)
      returns (advice: Option<Planner.Plan>)
      modifies this, store
      ensures Snapshot() == Observe(old(Snapshot()), o, saveOk, id)
      ensures var c := CallOf(old(state), o);
              if c.post.fault != "none" && id(c.pre) != id(c.post) && (saveOk || !IsRecorded(c, id)) then
                exists plan, table ::
                  && Planner.Answers(store.Contents(), id(state), 1000, 1.0, 32, plan, table)
                  && (plan.Planned? ==> Planner.IsIterated(store.Contents(), 1000, 0.001, 1.0, table))
                  && advice == if plan.Planned? && plan.path != [] && plan.support >= minSupport then Some(plan) else None
              else advice == None
    {
      hide Planner.Answers, Planner.IsIterated;
      advice := None;
      var c := CallOf(state, o);
      state := c.post;
      if IsRecorded(c, id) {
        if !saveOk {
          return;
        }
        var recorded := store.RecordTransition(c, id);
        log := log + [c];
      }
      if c.post.fault != HEALTHY && id(c.pre) != id(c.post) {
        var plan, table :=
          Planner.PlanToGoal(store.Contents(), id(c.post), MAX_ITERS, EPSILON, MIN_EDGE_COST, MAX_PATH_LEN);
        if IsAdvice(plan, minSupport) {
          advice := Some(plan);
        }
      }
    }
  }
}
