/** The learned bench graph of nff/tools/policy.py: nodes, edges and the
    per-action statistics that the recorder writes and the planner reads. */
module PolicyGraph {
  /** One (from, action, to) edge with its counters, as stored in policy.json.
      The counters are plain integers: a hand-edited file may hold anything. */
  datatype Edge = Edge(from: string, action: string, to: string, count: int, success: int, wall: int)

  datatype Node = Node(device: string, fault: string, visits: int)

  datatype Graph = Graph(nodes: map<string, Node>, edges: seq<Edge>)

  const HEALTHY := "none"

  const EMPTY_GRAPH := Graph(map[], [])

  predicate IsGoalNode(n: Node) {
    n.fault == HEALTHY
  }

  predicate IsGoal(g: Graph, s: string) {
    s in g.nodes && IsGoalNode(g.nodes[s])
  }

  /** The edges leaving `s`, in recording order. */
  function EdgesFrom(es: seq<Edge>, s: string): seq<Edge> {
    if es == [] then []
    else EdgesFrom(es[..|es| - 1], s) + (if es[|es| - 1].from == s then [es[|es| - 1]] else [])
  }

  /** The edges of one action, in recording order. */
  function EdgesOf(es: seq<Edge>, a: string): seq<Edge> {
    if es == [] then []
    else EdgesOf(es[..|es| - 1], a) + (if es[|es| - 1].action == a then [es[|es| - 1]] else [])
  }

  /** All edges of action `a` out of state `s`: the group that `_eval_action` scores. */
  function Group(g: Graph, s: string, a: string): seq<Edge> {
    EdgesOf(EdgesFrom(g.edges, s), a)
  }

  lemma {:induction false} EdgesFromMembers(es: seq<Edge>, s: string)
    ensures forall e :: e in EdgesFrom(es, s) <==> e in es && e.from == s
  {
    if es != [] {
      EdgesFromMembers(es[..|es| - 1], s);
      assert forall e :: e in es <==> e in es[..|es| - 1] || e == es[|es| - 1];
    }
  }

  lemma {:induction false} EdgesOfMembers(es: seq<Edge>, a: string)
    ensures forall e :: e in EdgesOf(es, a) <==> e in es && e.action == a
  {
    if es != [] {
      EdgesOfMembers(es[..|es| - 1], a);
      assert forall e :: e in es <==> e in es[..|es| - 1] || e == es[|es| - 1];
    }
  }

  lemma GroupMembers(g: Graph, s: string, a: string)
    ensures forall e :: e in Group(g, s, a) <==> e in g.edges && e.from == s && e.action == a
  {
    EdgesFromMembers(g.edges, s);
    EdgesOfMembers(EdgesFrom(g.edges, s), a);
  }

  lemma EdgesFromStep(es: seq<Edge>, e: Edge, s: string)
    ensures EdgesFrom([], s) == []
    ensures EdgesFrom(es + [e], s) == EdgesFrom(es, s) + (if e.from == s then [e] else [])
  {
    assert (es + [e])[..|es|] == es;
  }

  lemma EdgesOfStep(es: seq<Edge>, e: Edge, name: string)
    ensures EdgesOf([], name) == []
    ensures EdgesOf(es + [e], name) == EdgesOf(es, name) + (if e.action == name then [e] else [])
  {
    assert (es + [e])[..|es|] == es;
  }

  lemma Regroup(a: seq<Edge>, b: seq<Edge>, c: seq<Edge>)
    ensures (a + b) + c == a + (b + c) && a + [] == a
  {
  }

  /** Both selections keep the order: they work edge by edge, from the left. */
  lemma {:induction false} EdgesFromJoin(a: seq<Edge>, b: seq<Edge>, s: string)
    ensures EdgesFrom(a + b, s) == EdgesFrom(a, s) + EdgesFrom(b, s)
  {
    hide EdgesFrom;
    if b == [] {
      EdgesFromStep([], Edge("", "", "", 0, 0, 0), s);
      assert a + b == a;
    } else {
      var front, e := b[..|b| - 1], b[|b| - 1];
      EdgesFromJoin(a, front, s);
      EdgesFromStep(a + front, e, s);
      EdgesFromStep(front, e, s);
      Regroup(a, front, [e]);
      Regroup(EdgesFrom(a, s), EdgesFrom(front, s), if e.from == s then [e] else []);
      assert front + [e] == b;
    }
  }

  lemma {:induction false} EdgesOfJoin(a: seq<Edge>, b: seq<Edge>, name: string)
    ensures EdgesOf(a + b, name) == EdgesOf(a, name) + EdgesOf(b, name)
  {
    hide EdgesOf;
    if b == [] {
      EdgesOfStep([], Edge("", "", "", 0, 0, 0), name);
      assert a + b == a;
    } else {
      var front, e := b[..|b| - 1], b[|b| - 1];
      EdgesOfJoin(a, front, name);
      EdgesOfStep(a + front, e, name);
      EdgesOfStep(front, e, name);
      Regroup(a, front, [e]);
      Regroup(EdgesOf(a, name), EdgesOf(front, name), if e.action == name then [e] else []);
      assert front + [e] == b;
    }
  }

  lemma SelectedAlone(e: Edge, key: string)
    ensures EdgesFrom([e], key) == if e.from == key then [e] else []
    ensures EdgesOf([e], key) == if e.action == key then [e] else []
  {
    assert [e][..0] == [];
  }

  function Count(es: seq<Edge>): int {
    if es == [] then 0 else Count(es[..|es| - 1]) + es[|es| - 1].count
  }

  function Successes(es: seq<Edge>): int {
    if es == [] then 0 else Successes(es[..|es| - 1]) + es[|es| - 1].success
  }

  function Wall(es: seq<Edge>): int {
    if es == [] then 0 else Wall(es[..|es| - 1]) + es[|es| - 1].wall
  }

  /** What the recorder guarantees of every edge it writes. */
  predicate SaneCounts(es: seq<Edge>) {
    forall e :: e in es ==> 0 <= e.success <= e.count && 0 < e.count
  }
}
