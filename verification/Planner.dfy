/** plan_to_goal of nff/tools/policy.py: in-place value iteration with the self-loop
    solved in closed form, then greedy extraction. Floats are modelled as reals
    plus infinity. */
module Planner {
  import opened Wrappers
  import opened PolicyGraph
  import StringOrder

  // ---------------------------------------------------------------------
  // Extended values
  // ---------------------------------------------------------------------

  datatype Value = Fin(v: real) | Inf

  predicate Less(a: Value, b: Value) {
    a.Fin? && (b.Inf? || a.v < b.v)
  }

  predicate AtMost(a: Value, b: Value) {
    b.Inf? || (a.Fin? && a.v <= b.v)
  }

  function Plus(a: Value, b: Value): Value {
    if a.Fin? && b.Fin? then Fin(a.v + b.v) else Inf
  }

  /** A product, named so that proofs can treat it as an atom. */
  function Times(p: real, x: real): real {
    p * x
  }

  lemma TimesMonotone(p: real, x: real, y: real)
    requires p >= 0.0 && x <= y
    ensures Times(p, x) <= Times(p, y)
  {
  }

  lemma TimesSign(p: real, x: real)
    requires p >= 0.0 && x >= 0.0
    ensures Times(p, x) >= 0.0
  {
  }

  /** p * v for a positive weight p. */
  function Scale(p: real, a: Value): Value {
    if a.Fin? then Fin(Times(p, a.v)) else Inf
  }

  /** The value table: a state without an entry counts as infinitely far. */
  type Table = map<string, Value>

  function At(values: Table, s: string): Value {
    if s in values then values[s] else Inf
  }

  // ---------------------------------------------------------------------
  // One action: the closed-form Q-value
  // ---------------------------------------------------------------------

  /** An edge that makes trusted progress: not a self-loop, succeeded at least once. */
  predicate Advances(s: string, e: Edge) {
    e.to != s && e.success > 0
  }

  function Prob(e: Edge, c: int): real
    requires c > 0
  {
    e.success as real / c as real
  }

  /** Mean wall time per observation of the action, floored at `minEdge`. */
  function StepCost(es: seq<Edge>, minEdge: real): real
    requires Count(es) > 0
  {
    var mean := Wall(es) as real / Count(es) as real;
    if mean > minEdge then mean else minEdge
  }

  /** Probability mass on advancing edges, before clamping. */
  function Mass(s: string, es: seq<Edge>, c: int): real
    requires c > 0
  {
    if es == [] then 0.0
    else
      var e := es[|es| - 1];
      Mass(s, es[..|es| - 1], c) + (if Advances(s, e) then Prob(e, c) else 0.0)
  }

  /** Sum of p(to) * V(to) over advancing edges. */
  function Onward(s: string, es: seq<Edge>, c: int, values: Table): Value
    requires c > 0
  {
    if es == [] then Fin(0.0)
    else
      var e := es[|es| - 1];
      var rest := Onward(s, es[..|es| - 1], c, values);
      if Advances(s, e) then Plus(rest, Scale(Prob(e, c), At(values, e.to))) else rest
  }

  function Clamp(p: real): real {
    if p < 0.0 then 0.0 else if p > 1.0 then 1.0 else p
  }

  /** The nearest share between none and all. */
  lemma ClampIsNearest(p: real, x: real)
    requires 0.0 <= x <= 1.0
    ensures 0.0 <= Clamp(p) <= 1.0
    ensures if p <= x then p <= Clamp(p) <= x else x <= Clamp(p) <= p
    ensures 0.0 <= p <= 1.0 ==> Clamp(p) == p
  {
  }

  function Q(s: string, es: seq<Edge>, values: Table, minEdge: real): Value {
    var c := Count(es);
    if c <= 0 then Inf
    else
      var progress := Clamp(Mass(s, es, c));
      var onward := Onward(s, es, c, values);
      if progress <= 0.0 || onward.Inf? then Inf
      else Fin((StepCost(es, minEdge) + onward.v) / progress)
  }

  /** The edge whose target the plan step names. */
  function Nominal(s: string, es: seq<Edge>): Option<Edge> {
    if es == [] then None
    else
      var best := Nominal(s, es[..|es| - 1]);
      var e := es[|es| - 1];
      if Advances(s, e) && (best.None? || e.success > best.value.success) then Some(e) else best
  }

  /** Index `i` is the first of the most often successful advancing edges. */
  ghost predicate FirstMostLikely(s: string, es: seq<Edge>, i: int) {
    && 0 <= i < |es| && Advances(s, es[i])
    && (forall j :: 0 <= j < |es| && Advances(s, es[j]) ==>
          if j < i then es[j].success < es[i].success else es[j].success <= es[i].success)
  }

  /** The nominal edge is the earliest most likely advancing edge (at the index
      returned); there is none exactly when no edge advances. */
  lemma {:induction false} NominalIsFirstMostLikely(s: string, es: seq<Edge>) returns (i: int)
    ensures Nominal(s, es).None? <==> forall j :: 0 <= j < |es| ==> !Advances(s, es[j])
    ensures Nominal(s, es).Some? ==> FirstMostLikely(s, es, i) && es[i] == Nominal(s, es).value
  {
    i := 0;
    if es != [] {
      var n := |es| - 1;
      var front := es[..n];
      assert forall j :: 0 <= j < n ==> front[j] == es[j];
      i := NominalIsFirstMostLikely(s, front);
      if Nominal(s, es) != Nominal(s, front) || Nominal(s, front).None? {
        i := n;
      }
    }
  }

  datatype Eval = Eval(q: Value, cost: real, nominalTo: Option<string>, nominalP: real, support: int)

  ghost predicate NominalFields(s: string, es: seq<Edge>, c: int, to: Option<string>, p: real)
    requires c > 0
  {
    match Nominal(s, es)
    case None => to == None && p == 0.0
    case Some(e) => to == Some(e.to) && p == Prob(e, c)
  }

  ghost predicate IsEval(s: string, es: seq<Edge>, values: Table, minEdge: real, ev: Eval) {
    && ev.q == Q(s, es, values, minEdge)
    && (Count(es) <= 0 ==> ev == Eval(Inf, minEdge, None, 0.0, 0))
    && (Count(es) > 0 ==>
          ev.cost == StepCost(es, minEdge)
          && ev.support == Count(es)
          && NominalFields(s, es, Count(es), ev.nominalTo, ev.nominalP))
  }

  lemma ProbSign(e: Edge, c: int)
    requires c > 0
    ensures Prob(e, c) > 0.0 <==> e.success > 0
  {
  }

  lemma ProbOrder(a: Edge, b: Edge, c: int)
    requires c > 0
    ensures Prob(a, c) > Prob(b, c) <==> a.success > b.success
  {
  }

  method Totals(es: seq<Edge>) returns (c: int, wall: int)
    ensures c == Count(es) && wall == Wall(es)
  {
    c, wall := 0, 0;
    for i := 0 to |es|
      invariant c == Count(es[..i]) && wall == Wall(es[..i])
    {
      assert es[..i + 1][..i] == es[..i];
      c, wall := c + es[i].count, wall + es[i].wall;
    }
    assert es[..|es|] == es;
  }

  lemma GroupStart(s: string, c: int, values: Table)
    requires c > 0
    ensures Mass(s, [], c) == 0.0 && Onward(s, [], c, values) == Fin(0.0) && Nominal(s, []) == None
  {
  }

  /** What one more edge adds to a group. */
  lemma GroupStep(s: string, es: seq<Edge>, e: Edge, c: int, values: Table)
    requires c > 0
    ensures Advances(s, e) <==> e.to != s && e.success > 0
    ensures Mass(s, es + [e], c) == Mass(s, es, c) + (if Advances(s, e) then Prob(e, c) else 0.0)
    ensures Onward(s, es + [e], c, values) ==
              if Advances(s, e) then Plus(Onward(s, es, c, values), Scale(Prob(e, c), At(values, e.to)))
              else Onward(s, es, c, values)
    ensures var best := Nominal(s, es);
            Nominal(s, es + [e]) ==
              if Advances(s, e) && (best.None? || e.success > best.value.success) then Some(e) else best
  {
    hide Prob, Plus, Scale;
    assert (es + [e])[..|es|] == es;
  }

  /** The accumulation loop of `_eval_action` over one group of edges. */
  method Accumulate(s: string, es: seq<Edge>, c: int, cost: real, values: Table)
    returns (progress: real, numerator: Value, nominalTo: Option<string>, nominalP: real)
    requires c > 0
    ensures progress == Mass(s, es, c)
    ensures numerator == Plus(Fin(cost), Onward(s, es, c, values))
    ensures NominalFields(s, es, c, nominalTo, nominalP)
  {
    hide Mass, Onward, Nominal, Prob, Advances, Scale;
    GroupStart(s, c, values);
    progress, numerator, nominalTo, nominalP := 0.0, Fin(cost), None, 0.0;
    assert es[..0] == [];
    for i := 0 to |es|
      invariant progress == Mass(s, es[..i], c)
      invariant numerator == Plus(Fin(cost), Onward(s, es[..i], c, values))
      invariant NominalFields(s, es[..i], c, nominalTo, nominalP)
    {
      var e := es[i];
      assert es[..i + 1] == es[..i] + [e];
      var p := Prob(e, c);
      ProbSign(e, c);
      GroupStep(s, es[..i], e, c, values);
      if e.to != s && p > 0.0 {
        ProbOrder(e, Nominal(s, es[..i]).GetOr(e), c);
        progress := progress + p;
        numerator := Plus(numerator, Scale(p, At(values, e.to)));
        if p > nominalP {
          nominalP, nominalTo := p, Some(e.to);
        }
      }
    }
    assert es[..|es|] == es;
  }

  method EvalAction(s: string, es: seq<Edge>, values: Table, minEdge: real) returns (ev: Eval)
    ensures IsEval(s, es, values, minEdge, ev)
  {
    var c, wall := Totals(es);
    if c <= 0 {
      return Eval(Inf, minEdge, None, 0.0, 0);
    }
    var mean := wall as real / c as real;
    var cost := if mean > minEdge then mean else minEdge;
    var progress, numerator, nominalTo, nominalP := Accumulate(s, es, c, cost, values);
    progress := Clamp(progress);
    var q := if progress > 0.0 && numerator.Fin? then Fin(numerator.v / progress) else Inf;
    ev := Eval(q, cost, nominalTo, nominalP, c);
  }


  // ---------------------------------------------------------------------
  // One state: the best action
  // ---------------------------------------------------------------------

  /** The step cost of an observed action is the mean wall time, or the floor above it. */
  lemma CostIsFlooredMean(s: string, es: seq<Edge>, values: Table, minEdge: real, ev: Eval)
    requires IsEval(s, es, values, minEdge, ev) && Count(es) > 0
    ensures ev.cost >= minEdge && ev.cost * Count(es) as real >= Wall(es) as real
    ensures ev.cost == minEdge || ev.cost * Count(es) as real == Wall(es) as real
  {
    MeanTimesCount(Wall(es) as real, Count(es) as real, minEdge);
  }

  lemma MeanTimesCount(total: real, count: real, floor: real)
    requires count > 0.0
    ensures (total / count) * count == total
    ensures total / count <= floor ==> floor * count >= total
  {
    if total / count <= floor {
      assert (floor - total / count) * count >= 0.0;
    }
  }

  datatype Best = Best(action: string, ev: Eval)

  function ActionQ(s: string, es: seq<Edge>, a: string, values: Table, minEdge: real): Value {
    Q(s, EdgesOf(es, a), values, minEdge)
  }

  /** `b` scores one of the `actions`, none scores lower, and of the equally good
      ones it carries the least name. */
  ghost predicate BestAmong(s: string, es: seq<Edge>, actions: iset<string>, values: Table, minEdge: real, b: Best) {
    && b.action in actions
    && IsEval(s, EdgesOf(es, b.action), values, minEdge, b.ev)
    && (forall a :: a in actions ==> AtMost(b.ev.q, ActionQ(s, es, a, values, minEdge)))
    && (forall a :: a in actions && StringOrder.Less(a, b.action) ==>
          Less(b.ev.q, ActionQ(s, es, a, values, minEdge)))
  }

  ghost function Actions(es: seq<Edge>): iset<string> {
    iset a | EdgesOf(es, a) != []
  }

  ghost predicate IsBest(s: string, es: seq<Edge>, values: Table, minEdge: real, b: Best) {
    BestAmong(s, es, Actions(es), values, minEdge, b)
  }

  /** The choice is a function of the edges and the table: dictionary order never shows. */
  lemma BestIsUnique(s: string, es: seq<Edge>, values: Table, minEdge: real, b: Best, b': Best)
    requires IsBest(s, es, values, minEdge, b) && IsBest(s, es, values, minEdge, b')
    ensures b == b'
  {
    StringOrder.Trichotomy(b.action, b'.action);
  }

  /** What edges are grouped by. */
  datatype Field = Action | From

  function KeyIn(e: Edge, f: Field): string {
    if f.Action? then e.action else e.from
  }

  function EdgesWith(es: seq<Edge>, f: Field, k: string): seq<Edge> {
    if f.Action? then EdgesOf(es, k) else EdgesFrom(es, k)
  }

  lemma EdgesWithStep(es: seq<Edge>, f: Field, k: string, e: Edge)
    ensures EdgesWith(es + [e], f, k) == EdgesWith(es, f, k) + (if KeyIn(e, f) == k then [e] else [])
    ensures EdgesWith([], f, k) == []
  {
    assert (es + [e])[..|es|] == es;
  }

  /** The keys in the order in which the edges first show them. */
  function FirstSeen(es: seq<Edge>, f: Field): seq<string> {
    if es == [] then []
    else
      var before, k := FirstSeen(es[..|es| - 1], f), KeyIn(es[|es| - 1], f);
      if k in before then before else before + [k]
  }

  lemma FirstSeenStep(es: seq<Edge>, f: Field, e: Edge)
    ensures FirstSeen([], f) == []
    ensures FirstSeen(es + [e], f) ==
              if KeyIn(e, f) in FirstSeen(es, f) then FirstSeen(es, f) else FirstSeen(es, f) + [KeyIn(e, f)]
  {
    assert (es + [e])[..|es|] == es;
  }

  /** `groups` holds the non-empty groups of the edges, and `keys` lists its domain. */
  ghost predicate IsGrouping(es: seq<Edge>, f: Field, keys: seq<string>, groups: map<string, seq<Edge>>) {
    && StringOrder.Distinct(keys) && keys == FirstSeen(es, f)
    && (forall k :: k in keys <==> k in groups)
    && (forall k :: EdgesWith(es, f, k) == if k in groups then groups[k] else [])
    && (forall k :: k in groups ==> groups[k] != [])
  }

  function Filed(groups: map<string, seq<Edge>>, k: string, e: Edge): map<string, seq<Edge>> {
    groups[k := (if k in groups then groups[k] else []) + [e]]
  }

  /** Filing one more edge under its key. */
  lemma GroupingGrows(es: seq<Edge>, f: Field, keys: seq<string>, groups: map<string, seq<Edge>>, e: Edge)
    requires IsGrouping(es, f, keys, groups)
    ensures var k := KeyIn(e, f);
            IsGrouping(es + [e], f, if k in groups then keys else keys + [k], Filed(groups, k, e))
  {
    hide EdgesWith, KeyIn, StringOrder.Distinct, FirstSeen;
    var k := KeyIn(e, f);
    FirstSeenStep(es, f, e);
    forall x ensures EdgesWith(es + [e], f, x) == if x in Filed(groups, k, e) then Filed(groups, k, e)[x] else [] {
      EdgesWithStep(es, f, x, e);
    }
    DistinctGrows(keys, k);
  }

  lemma GroupsByAction(es: seq<Edge>, keys: seq<string>, groups: map<string, seq<Edge>>)
    requires IsGrouping(es, Action, keys, groups)
    ensures StringOrder.Distinct(keys) && keys == FirstSeen(es, Action)
    ensures forall a :: a in keys <==> EdgesOf(es, a) != []
    ensures forall a :: a in keys ==> a in groups && groups[a] == EdgesOf(es, a)
  {
    forall a ensures EdgesWith(es, Action, a) == EdgesOf(es, a) {
    }
  }

  lemma GroupsByFrom(es: seq<Edge>, keys: seq<string>, groups: map<string, seq<Edge>>)
    requires IsGrouping(es, From, keys, groups)
    ensures StringOrder.Distinct(keys) && keys == FirstSeen(es, From)
    ensures forall s :: s in keys <==> EdgesFrom(es, s) != []
    ensures forall s :: EdgesFrom(es, s) == if s in groups then groups[s] else []
  {
    forall s ensures EdgesWith(es, From, s) == EdgesFrom(es, s) {
    }
  }

  lemma DistinctGrows(keys: seq<string>, k: string)
    requires StringOrder.Distinct(keys)
    ensures k !in keys ==> StringOrder.Distinct(keys + [k])
  {
  }

  lemma NoGroups(f: Field)
    ensures IsGrouping([], f, [], map[])
  {
  }

  /** The `setdefault` loop over the edges. */
  method GroupBy(es: seq<Edge>, f: Field) returns (keys: seq<string>, groups: map<string, seq<Edge>>)
    ensures IsGrouping(es, f, keys, groups)
  {
    hide IsGrouping;
    keys, groups := [], map[];
    NoGroups(f);
    assert es[..0] == [];
    for i := 0 to |es|
      invariant IsGrouping(es[..i], f, keys, groups)
    {
      GroupingGrows(es[..i], f, keys, groups, es[i]);
      assert es[..i + 1] == es[..i] + [es[i]];
      var k := KeyIn(es[i], f);
      keys := if k in groups then keys else keys + [k];
      groups := Filed(groups, k, es[i]);
    }
    assert es[..|es|] == es;
  }

  lemma BestExtends(s: string, es: seq<Edge>, actions: iset<string>, values: Table, minEdge: real,
                    best: Option<Best>, a: string, ev: Eval)
    requires best.None? <==> actions == iset{}
    requires best.Some? ==> BestAmong(s, es, actions, values, minEdge, best.value)
    requires forall x :: x in actions ==> StringOrder.Less(x, a)
    requires IsEval(s, EdgesOf(es, a), values, minEdge, ev)
    ensures BestAmong(s, es, actions + iset{a}, values, minEdge,
                      if best.None? || Less(ev.q, best.value.ev.q) then Best(a, ev) else best.value)
  {
    hide Q, StringOrder.Less, StepCost, NominalFields, EdgesOf, Count;
    StringOrder.Trichotomy(a, a);
    if best.Some? {
      StringOrder.Trichotomy(best.value.action, a);
    }
  }

  method BestAction(s: string, es: seq<Edge>, values: Table, minEdge: real) returns (best: Option<Best>)
    ensures best.None? <==> es == []
    ensures best.Some? ==> IsBest(s, es, values, minEdge, best.value)
  {
    hide EdgesOf, IsEval, BestAmong, FirstSeen, Less, Actions;
    var keys, groups := GroupBy(es, Action);
    GroupsByAction(es, keys, groups);
    hide IsGrouping;
    var order := StringOrder.Sorted(keys);
    StringOrder.SortedIsOrdered(keys);
    best := None;
    ghost var done: iset<string> := iset{};
    for i := 0 to |order|
      invariant best.None? <==> done == iset{}
      invariant forall a :: a in done <==> a in order[..i]
      invariant best.Some? ==> BestAmong(s, es, done, values, minEdge, best.value)
    {
      var a := order[i];
      assert a in keys;
      var ev := EvalAction(s, groups[a], values, minEdge);
      BestExtends(s, es, done, values, minEdge, best, a, ev);
      if best.None? || Less(ev.q, best.value.ev.q) {
        best := Some(Best(a, ev));
      }
      done := done + iset{a};
    }
    ActionsAreKeys(es, keys);
    assert done == Actions(es);
    NoActionsWithoutEdges(es);
  }

  lemma ActionsAreKeys(es: seq<Edge>, keys: seq<string>)
    requires forall a :: a in keys <==> EdgesOf(es, a) != []
    ensures forall a :: a in Actions(es) <==> a in keys
  {
    hide EdgesOf;
  }

  lemma NoActionsWithoutEdges(es: seq<Edge>)
    ensures es == [] <==> Actions(es) == iset{}
  {
    EveryEdgeHasAction(es);
    if es != [] {
      assert es[0].action in Actions(es);
    }
  }

  lemma EveryEdgeHasAction(es: seq<Edge>)
    ensures forall e :: e in es ==> e.action in Actions(es)
    ensures es == [] ==> Actions(es) == iset{}
    ensures forall a :: a in Actions(es) ==> exists e :: e in es && e.action == a
  {
    forall a ensures forall e :: e in EdgesOf(es, a) <==> e in es && e.action == a {
      EdgesOfMembers(es, a);
    }
    forall a | a in Actions(es) ensures exists e :: e in es && e.action == a {
      assert EdgesOf(es, a)[0] in EdgesOf(es, a);
    }
  }

  // ---------------------------------------------------------------------
  // Reference definitions: solvable states and sub-solutions
  // ---------------------------------------------------------------------

  /** Action `a` leaves `s` with some trusted progress, and only into `S`. */
  ghost predicate LeadsInto(s: string, es: seq<Edge>, S: iset<string>) {
    && Count(es) > 0
    && (exists e :: e in es && Advances(s, e))
    && (forall e :: e in es && Advances(s, e) ==> e.to in S)
  }

  /** `S` holds the goals and every state with an action leading into `S`. */
  ghost predicate Closed(g: Graph, S: iset<string>) {
    && (forall s :: IsGoal(g, s) ==> s in S)
    && (forall s, a :: LeadsInto(s, Group(g, s, a), S) ==> s in S)
  }

  /** Membership in the least closed set. */
  ghost predicate Solvable(g: Graph, s: string) {
    forall S: iset<string> :: Closed(g, S) ==> s in S
  }

  /** Sum of p(to) * w(to) over advancing edges, for a real-valued table. */
  ghost function Expected(s: string, es: seq<Edge>, c: int, w: string -> real): real
    requires c > 0
  {
    if es == [] then 0.0
    else
      var e := es[|es| - 1];
      Expected(s, es[..|es| - 1], c, w) + (if Advances(s, e) then Times(Prob(e, c), w(e.to)) else 0.0)
  }

  /** One step of the true process: pay, move on with the trusted mass, stay otherwise. */
  ghost function Backup(s: string, es: seq<Edge>, w: string -> real, minEdge: real): real
    requires Count(es) > 0
  {
    var c := Count(es);
    StepCost(es, minEdge) + Expected(s, es, c, w) + Times(1.0 - Clamp(Mass(s, es, c)), w(s))
  }

  ghost predicate SubSolution(g: Graph, minEdge: real, w: string -> real) {
    && (forall s :: IsGoal(g, s) ==> w(s) <= 0.0)
    && (forall s, a :: !IsGoal(g, s) && Count(Group(g, s, a)) > 0 ==>
          w(s) <= Backup(s, Group(g, s, a), w, minEdge))
  }

  // ---------------------------------------------------------------------
  // Facts about Q
  // ---------------------------------------------------------------------

  ghost function Reached(values: Table): iset<string> {
    iset s | At(values, s).Fin?
  }

  lemma {:induction false} MassSign(s: string, es: seq<Edge>, c: int)
    requires c > 0
    ensures Mass(s, es, c) >= 0.0
    ensures Mass(s, es, c) > 0.0 <==> exists e :: e in es && Advances(s, e)
  {
    if es != [] {
      var front, e := es[..|es| - 1], es[|es| - 1];
      MassSign(s, front, c);
      ProbSign(e, c);
      assert forall x :: x in es <==> x in front || x == e;
    }
  }

  lemma {:induction false} OnwardFinite(s: string, es: seq<Edge>, c: int, values: Table)
    requires c > 0
    ensures Onward(s, es, c, values).Fin? <==> forall e :: e in es && Advances(s, e) ==> At(values, e.to).Fin?
  {
    if es != [] {
      var front, e := es[..|es| - 1], es[|es| - 1];
      OnwardFinite(s, front, c, values);
      assert forall x :: x in es <==> x in front || x == e;
    }
  }

  lemma QFinite(s: string, es: seq<Edge>, values: Table, minEdge: real)
    ensures Q(s, es, values, minEdge).Fin? <==> LeadsInto(s, es, Reached(values))
  {
    if Count(es) > 0 {
      MassSign(s, es, Count(es));
      OnwardFinite(s, es, Count(es), values);
    }
  }

  ghost predicate Below(lower: Table, upper: Table) {
    forall s :: AtMost(At(lower, s), At(upper, s))
  }

  lemma DivideMonotone(x: real, y: real, p: real)
    requires p > 0.0 && x <= y
    ensures x / p <= y / p
  {
  }

  lemma {:induction false} OnwardMonotone(s: string, es: seq<Edge>, c: int, lower: Table, upper: Table)
    requires c > 0 && Below(lower, upper)
    ensures AtMost(Onward(s, es, c, lower), Onward(s, es, c, upper))
  {
    hide Times, Prob;
    if es != [] {
      var front, e := es[..|es| - 1], es[|es| - 1];
      OnwardMonotone(s, front, c, lower, upper);
      ProbSign(e, c);
      assert AtMost(At(lower, e.to), At(upper, e.to));
      if Advances(s, e) && At(upper, e.to).Fin? {
        TimesMonotone(Prob(e, c), At(lower, e.to).v, At(upper, e.to).v);
      }
    }
  }

  lemma QMonotone(s: string, es: seq<Edge>, lower: Table, upper: Table, minEdge: real)
    requires Below(lower, upper)
    ensures AtMost(Q(s, es, lower, minEdge), Q(s, es, upper, minEdge))
  {
    if Q(s, es, upper, minEdge).Fin? {
      var c := Count(es);
      OnwardMonotone(s, es, c, lower, upper);
      DivideMonotone(StepCost(es, minEdge) + Onward(s, es, c, lower).v,
                     StepCost(es, minEdge) + Onward(s, es, c, upper).v, Clamp(Mass(s, es, c)));
    }
  }

  ghost predicate NonNegative(values: Table) {
    forall s :: At(values, s).Fin? ==> At(values, s).v >= 0.0
  }

  lemma {:induction false} OnwardNonNegative(s: string, es: seq<Edge>, c: int, values: Table)
    requires c > 0 && NonNegative(values)
    ensures Onward(s, es, c, values).Fin? ==> Onward(s, es, c, values).v >= 0.0
  {
    hide Times, Prob;
    if es != [] {
      var front, e := es[..|es| - 1], es[|es| - 1];
      OnwardNonNegative(s, front, c, values);
      ProbSign(e, c);
      if Advances(s, e) && At(values, e.to).Fin? {
        TimesSign(Prob(e, c), At(values, e.to).v);
      }
    }
  }

  lemma DivideByAtMostOne(x: real, p: real)
    requires 0.0 < p <= 1.0 && x >= 0.0
    ensures x / p >= x
  {
    DivideMonotone(0.0, x, p);
    var q := x / p;
    assert q * p == x && q >= 0.0;
    assert q * (1.0 - p) >= 0.0;
  }

  lemma QAtLeastFloor(s: string, es: seq<Edge>, values: Table, minEdge: real)
    requires NonNegative(values) && minEdge >= 0.0
    ensures Q(s, es, values, minEdge).Fin? ==> Q(s, es, values, minEdge).v >= minEdge
  {
    if Q(s, es, values, minEdge).Fin? {
      var c := Count(es);
      OnwardNonNegative(s, es, c, values);
      DivideByAtMostOne(StepCost(es, minEdge) + Onward(s, es, c, values).v, Clamp(Mass(s, es, c)));
    }
  }

  ghost predicate Dominates(values: Table, w: string -> real) {
    forall s :: AtMost(Fin(w(s)), At(values, s))
  }

  lemma {:induction false} ExpectedBelowOnward(s: string, es: seq<Edge>, c: int, values: Table, w: string -> real)
    requires c > 0 && Dominates(values, w)
    ensures AtMost(Fin(Expected(s, es, c, w)), Onward(s, es, c, values))
  {
    hide Times, Prob;
    if es != [] {
      var front, e := es[..|es| - 1], es[|es| - 1];
      ExpectedBelowOnward(s, front, c, values, w);
      ProbSign(e, c);
      assert AtMost(Fin(w(e.to)), At(values, e.to));
      if Advances(s, e) && At(values, e.to).Fin? {
        TimesMonotone(Prob(e, c), w(e.to), At(values, e.to).v);
      }
    }
  }

  /** x <= a + (1 - p) x gives x <= a / p: the closed form of the self-loop. */
  lemma SelfLoopClosedForm(x: real, a: real, p: real)
    requires 0.0 < p
    ensures x <= a + Times(1.0 - p, x) <==> x <= a / p
  {
    assert Times(1.0 - p, x) == x - p * x;
    assert (a / p) * p == a;
    if x > a / p {
      assert (x - a / p) * p > 0.0;
    } else {
      assert (a / p - x) * p >= 0.0;
    }
  }

  lemma SubSolutionBelowQ(g: Graph, minEdge: real, s: string, a: string, values: Table, w: string -> real)
    requires SubSolution(g, minEdge, w) && Dominates(values, w) && !IsGoal(g, s)
    ensures AtMost(Fin(w(s)), Q(s, Group(g, s, a), values, minEdge))
  {
    hide Times, Expected, Onward, Mass, StepCost;
    var es := Group(g, s, a);
    if Q(s, es, values, minEdge).Fin? {
      var c := Count(es);
      var p := Clamp(Mass(s, es, c));
      ExpectedBelowOnward(s, es, c, values, w);
      SelfLoopClosedForm(w(s), StepCost(es, minEdge) + Expected(s, es, c, w), p);
      DivideMonotone(StepCost(es, minEdge) + Expected(s, es, c, w),
                     StepCost(es, minEdge) + Onward(s, es, c, values).v, p);
    }
  }

  /** `w` agrees with the table where the advancing edges lead. */
  ghost predicate Agrees(s: string, es: seq<Edge>, values: Table, w: string -> real) {
    forall e :: e in es && Advances(s, e) ==> At(values, e.to) == Fin(w(e.to))
  }

  lemma {:induction false} ExpectedIsOnward(s: string, es: seq<Edge>, c: int, values: Table, w: string -> real)
    requires c > 0 && Agrees(s, es, values, w)
    ensures Onward(s, es, c, values) == Fin(Expected(s, es, c, w))
  {
    hide Prob;
    if es != [] {
      var front, e := es[..|es| - 1], es[|es| - 1];
      assert e in es && forall x :: x in front ==> x in es;
      ExpectedIsOnward(s, front, c, values, w);
      ProbSign(e, c);
    }
  }

  /** A finite score is the solution of the cost equation: paying, moving on as observed and
      staying with the rest of the mass costs the score again. */
  lemma QSolvesBackup(s: string, es: seq<Edge>, values: Table, minEdge: real, w: string -> real)
    requires Agrees(s, es, values, w) && Q(s, es, values, minEdge) == Fin(w(s))
    ensures Count(es) > 0 && Backup(s, es, w, minEdge) == w(s)
  {
    var c := Count(es);
    ExpectedIsOnward(s, es, c, values, w);
    var p, a := Clamp(Mass(s, es, c)), StepCost(es, minEdge) + Expected(s, es, c, w);
    assert w(s) == a / p;
    hide Expected, Onward, Mass, StepCost;
    MeanTimesCount(a, p, 0.0);
    assert Times(1.0 - p, w(s)) == w(s) - p * w(s);
  }

  // ---------------------------------------------------------------------
  // What every single relaxation keeps
  // ---------------------------------------------------------------------

  ghost predicate GoalsAtZero(g: Graph, values: Table) {
    forall s :: IsGoal(g, s) ==> At(values, s) == Fin(0.0)
  }

  ghost predicate AboveFloor(g: Graph, values: Table, minEdge: real) {
    minEdge >= 0.0 ==> forall s :: !IsGoal(g, s) && At(values, s).Fin? ==> At(values, s).v >= minEdge
  }

  /** Each value is at least the best Q under the current table. */
  ghost predicate AboveBestQ(g: Graph, values: Table, minEdge: real) {
    forall s :: !IsGoal(g, s) && At(values, s).Fin? ==>
      exists a :: AtMost(Q(s, Group(g, s, a), values, minEdge), At(values, s))
  }

  ghost predicate OnlySolvable(g: Graph, values: Table) {
    forall S: iset<string> :: Closed(g, S) ==> Reached(values) <= S
  }

  ghost predicate AboveSubSolutions(g: Graph, values: Table, minEdge: real) {
    forall w: string -> real :: SubSolution(g, minEdge, w) ==> Dominates(values, w)
  }

  ghost predicate TableOk(g: Graph, values: Table, minEdge: real) {
    && GoalsAtZero(g, values)
    && AboveFloor(g, values, minEdge)
    && AboveBestQ(g, values, minEdge)
    && OnlySolvable(g, values)
    && AboveSubSolutions(g, values, minEdge)
  }

  lemma RelaxedFloor(g: Graph, values: Table, minEdge: real, s: string, a: string)
    requires GoalsAtZero(g, values) && AboveFloor(g, values, minEdge) && !IsGoal(g, s)
    requires Q(s, Group(g, s, a), values, minEdge).Fin?
    ensures AboveFloor(g, values[s := Q(s, Group(g, s, a), values, minEdge)], minEdge)
  {
    if minEdge >= 0.0 {
      QAtLeastFloor(s, Group(g, s, a), values, minEdge);
    }
  }

  lemma RelaxedBestQ(g: Graph, values: Table, minEdge: real, s: string, a: string)
    requires AboveBestQ(g, values, minEdge) && !IsGoal(g, s)
    requires Less(Q(s, Group(g, s, a), values, minEdge), At(values, s))
    ensures AboveBestQ(g, values[s := Q(s, Group(g, s, a), values, minEdge)], minEdge)
  {
    var q := Q(s, Group(g, s, a), values, minEdge);
    var after := values[s := q];
    assert Below(after, values);
    forall t | !IsGoal(g, t) && At(after, t).Fin?
      ensures exists b :: AtMost(Q(t, Group(g, t, b), after, minEdge), At(after, t))
    {
      if t == s {
        QMonotone(s, Group(g, s, a), after, values, minEdge);
        assert AtMost(Q(t, Group(g, t, a), after, minEdge), At(after, t));
      } else {
        assert At(after, t) == At(values, t);
        var b :| AtMost(Q(t, Group(g, t, b), values, minEdge), At(values, t));
        QMonotone(t, Group(g, t, b), after, values, minEdge);
        assert AtMost(Q(t, Group(g, t, b), after, minEdge), At(after, t));
      }
    }
  }

  lemma RelaxedSolvable(g: Graph, values: Table, minEdge: real, s: string, a: string)
    requires OnlySolvable(g, values) && Q(s, Group(g, s, a), values, minEdge).Fin?
    ensures OnlySolvable(g, values[s := Q(s, Group(g, s, a), values, minEdge)])
  {
    QFinite(s, Group(g, s, a), values, minEdge);
    forall S: iset<string> | Closed(g, S)
      ensures Reached(values[s := Q(s, Group(g, s, a), values, minEdge)]) <= S
    {
      assert LeadsInto(s, Group(g, s, a), S);
    }
  }

  lemma RelaxedSubSolutions(g: Graph, values: Table, minEdge: real, s: string, a: string)
    requires AboveSubSolutions(g, values, minEdge) && !IsGoal(g, s)
    ensures AboveSubSolutions(g, values[s := Q(s, Group(g, s, a), values, minEdge)], minEdge)
  {
    forall w: string -> real | SubSolution(g, minEdge, w)
      ensures Dominates(values[s := Q(s, Group(g, s, a), values, minEdge)], w)
    {
      SubSolutionBelowQ(g, minEdge, s, a, values, w);
    }
  }

  lemma RelaxationKeepsTable(g: Graph, values: Table, minEdge: real, s: string, a: string)
    requires TableOk(g, values, minEdge) && !IsGoal(g, s)
    requires Less(Q(s, Group(g, s, a), values, minEdge), At(values, s))
    ensures TableOk(g, values[s := Q(s, Group(g, s, a), values, minEdge)], minEdge)
  {
    RelaxedFloor(g, values, minEdge, s, a);
    RelaxedBestQ(g, values, minEdge, s, a);
    RelaxedSolvable(g, values, minEdge, s, a);
    RelaxedSubSolutions(g, values, minEdge, s, a);
  }

  function InitialTable(g: Graph): Table {
    map s | s in g.nodes :: if IsGoalNode(g.nodes[s]) then Fin(0.0) else Inf
  }

  lemma InitialTableOk(g: Graph, minEdge: real)
    ensures TableOk(g, InitialTable(g), minEdge)
    ensures forall s :: At(InitialTable(g), s).Fin? <==> IsGoal(g, s)
  {
  }

  // ---------------------------------------------------------------------
  // Sweeps
  // ---------------------------------------------------------------------

  /** The states `plan_to_goal` relaxes: those with outgoing edges that are not goals. */
  ghost predicate IsRelaxable(g: Graph, relaxable: seq<string>) {
    && StringOrder.Distinct(relaxable)
    && (forall s :: s in relaxable <==> EdgesFrom(g.edges, s) != [] && !IsGoal(g, s))
  }

  ghost predicate GroupedByFrom(g: Graph, edgesFrom: map<string, seq<Edge>>) {
    forall s :: EdgesFrom(g.edges, s) == if s in edgesFrom then edgesFrom[s] else []
  }

  /** No state outside `reached` has an action leading into it. */
  ghost predicate Settled(g: Graph, states: seq<string>, reached: iset<string>) {
    forall s, a :: s in states && LeadsInto(s, Group(g, s, a), reached) ==> s in reached
  }

  lemma NoBestNoAction(g: Graph, s: string, values: Table, minEdge: real, b: Best)
    requires IsBest(s, EdgesFrom(g.edges, s), values, minEdge, b) && b.ev.q.Inf?
    ensures forall a :: !LeadsInto(s, Group(g, s, a), Reached(values))
  {
    forall a ensures !LeadsInto(s, Group(g, s, a), Reached(values)) {
      QFinite(s, Group(g, s, a), values, minEdge);
      if a in Actions(EdgesFrom(g.edges, s)) {
        assert AtMost(b.ev.q, ActionQ(s, EdgesFrom(g.edges, s), a, values, minEdge));
      }
    }
  }

  /** One relaxation: the best score replaces a higher value, nothing else changes. */
  ghost predicate Relaxes(g: Graph, s: string, before: Table, after: Table, minEdge: real) {
    exists b :: IsBest(s, EdgesFrom(g.edges, s), before, minEdge, b)
                && after == if Less(b.ev.q, At(before, s)) then before[s := b.ev.q] else before
  }

  /** By how much the value of `s` fell; infinitely when it became finite. */
  function Drop(before: Table, after: Table, s: string): Value {
    if At(before, s) == At(after, s) then Fin(0.0)
    else if At(before, s).Inf? || At(after, s).Inf? then Inf
    else Fin(At(before, s).v - At(after, s).v)
  }

  /** A drop is what the new value lacks to the old one. */
  lemma DropIsDecrease(before: Table, after: Table, s: string)
    ensures At(before, s) == At(after, s) ==> Drop(before, after, s) == Fin(0.0)
    ensures At(before, s).Fin? && At(after, s).Fin? ==>
              Drop(before, after, s).Fin? && At(after, s).v + Drop(before, after, s).v == At(before, s).v
    ensures At(before, s).Inf? != At(after, s).Inf? ==> Drop(before, after, s) == Inf
  {
  }

  /** `tables` are the tables between the relaxations of a pass, and `most` the largest drop. */
  ghost predicate IsPass(g: Graph, states: seq<string>, tables: seq<Table>, most: Value, minEdge: real) {
    && |tables| == |states| + 1
    && (forall i {:trigger states[i]} :: 0 <= i < |states| ==> Relaxes(g, states[i], tables[i], tables[i + 1], minEdge))
    && (forall i {:trigger states[i]} :: 0 <= i < |states| ==> AtMost(Drop(tables[i], tables[i + 1], states[i]), most))
    && (most == Fin(0.0) || exists i {:trigger states[i]} :: 0 <= i < |states| && most == Drop(tables[i], tables[i + 1], states[i]))
  }

  lemma AtMostLarger(a: Value, most: Value, d: Value)
    requires AtMost(a, most)
    ensures AtMost(a, if Less(most, d) then d else most) && AtMost(d, if Less(most, d) then d else most)
  {
  }

  lemma PassGrows(g: Graph, states: seq<string>, tables: seq<Table>, most: Value, minEdge: real, s: string, after: Table)
    requires IsPass(g, states, tables, most, minEdge) && Relaxes(g, s, tables[|states|], after, minEdge)
    ensures var d := Drop(tables[|states|], after, s);
            IsPass(g, states + [s], tables + [after], if Less(most, d) then d else most, minEdge)
  {
    hide Relaxes, Drop, Less, AtMost;
    var d := Drop(tables[|states|], after, s);
    var ss, ts := states + [s], tables + [after];
    var most' := if Less(most, d) then d else most;
    AtMostItself(most);
    AtMostLarger(most, most, d);
    forall i | 0 <= i < |ss|
      ensures Relaxes(g, ss[i], ts[i], ts[i + 1], minEdge) && AtMost(Drop(ts[i], ts[i + 1], ss[i]), most')
    {
      assert ts[i] == tables[i];
      if i < |states| {
        assert ts[i + 1] == tables[i + 1];
        AtMostLarger(Drop(tables[i], tables[i + 1], states[i]), most, d);
      }
    }
    if most' != Fin(0.0) {
      if Less(most, d) {
        assert most' == Drop(ts[|states|], ts[|states| + 1], ss[|states|]);
      } else {
        var i :| 0 <= i < |states| && most == Drop(tables[i], tables[i + 1], states[i]);
        assert most' == Drop(ts[i], ts[i + 1], ss[i]);
      }
    }
  }

  lemma AtMostItself(a: Value)
    ensures AtMost(a, a)
  {
  }

  lemma NoPass(g: Graph, table: Table, minEdge: real)
    ensures IsPass(g, [], [table], Fin(0.0), minEdge)
  {
  }

  /** A whole pass over the relaxable states leads from one table to another. */
  ghost predicate Sweeps(g: Graph, states: seq<string>, before: Table, after: Table, most: Value, minEdge: real) {
    exists tables :: |tables| == |states| + 1 && IsPass(g, states, tables, most, minEdge)
                     && tables[0] == before && tables[|states|] == after
  }

  /** One relaxation of state `s`. */
  method Relax(g: Graph, s: string, es: seq<Edge>, before: Table, minEdge: real) returns (values: Table, delta: Value)
    requires es == EdgesFrom(g.edges, s) && es != [] && !IsGoal(g, s)
    requires TableOk(g, before, minEdge)
    ensures TableOk(g, values, minEdge)
    ensures Relaxes(g, s, before, values, minEdge) && delta == Drop(before, values, s)
    ensures Reached(values) == if delta.Inf? then Reached(before) + iset{s} else Reached(before)
    ensures delta.Inf? ==> s !in Reached(before)
    ensures forall a :: LeadsInto(s, Group(g, s, a), Reached(before)) ==> s in Reached(values)
  {
    var best := BestAction(s, es, before, minEdge);
    var q, prior := best.value.ev.q, At(before, s);
    values, delta := before, Fin(0.0);
    if Less(q, prior) {
      RelaxationKeepsTable(g, before, minEdge, s, best.value.action);
      delta := if prior.Inf? then Inf else Fin(prior.v - q.v);
      values := values[s := q];
    } else if prior.Inf? {
      NoBestNoAction(g, s, before, minEdge, best.value);
    }
  }

  /** One pass over the relaxable states, in place. `maxDelta` is infinite exactly when
      some state became finite; otherwise nothing outside the finite set can move. */
  method Sweep(g: Graph, edgesFrom: map<string, seq<Edge>>, relaxable: seq<string>, before: Table, minEdge: real)
    returns (values: Table, maxDelta: Value)
    requires GroupedByFrom(g, edgesFrom) && IsRelaxable(g, relaxable)
    requires TableOk(g, before, minEdge)
    ensures TableOk(g, values, minEdge)
    ensures Sweeps(g, relaxable, before, values, maxDelta, minEdge)
    ensures Reached(before) <= Reached(values)
    ensures forall s :: s in Reached(values) ==> s in Reached(before) || s in relaxable
    ensures maxDelta.Inf? <==> Reached(before) != Reached(values)
    ensures maxDelta.Fin? ==> Settled(g, relaxable, Reached(values))
  {
    hide TableOk, LeadsInto, Group, IsPass, Relaxes, Drop, EdgesFrom, IsGoal;
    values, maxDelta := before, Fin(0.0);
    ghost var tables := [before];
    NoPass(g, before, minEdge);
    assert relaxable[..0] == [];
    for i := 0 to |relaxable|
      invariant TableOk(g, values, minEdge)
      invariant IsPass(g, relaxable[..i], tables, maxDelta, minEdge)
      invariant |tables| == i + 1 && tables[0] == before && tables[i] == values
      invariant Reached(before) <= Reached(values)
      invariant forall s :: s in Reached(values) ==> s in Reached(before) || s in relaxable
      invariant maxDelta.Inf? <==> Reached(before) != Reached(values)
      invariant maxDelta.Fin? ==> Settled(g, relaxable[..i], Reached(values))
    {
      var s := relaxable[i];
      assert s in relaxable;
      assert relaxable[..i + 1] == relaxable[..i] + [s];
      ghost var was := Reached(values);
      var after, delta := Relax(g, s, edgesFrom[s], values, minEdge);
      PassGrows(g, relaxable[..i], tables, maxDelta, minEdge, s, after);
      values, tables := after, tables + [after];
      assert delta.Inf? ==> s in Reached(values) && s !in was;
      maxDelta := if Less(maxDelta, delta) then delta else maxDelta;
    }
    assert relaxable[..|relaxable|] == relaxable;
  }

  lemma SettledIsClosed(g: Graph, relaxable: seq<string>, values: Table, minEdge: real)
    requires IsRelaxable(g, relaxable) && TableOk(g, values, minEdge)
    requires Settled(g, relaxable, Reached(values))
    ensures Closed(g, Reached(values))
  {
    forall s, a | LeadsInto(s, Group(g, s, a), Reached(values)) ensures s in Reached(values) {
      var e :| e in Group(g, s, a);
      GroupMembers(g, s, a);
      EdgesFromMembers(g.edges, s);
      assert e in EdgesFrom(g.edges, s);
    }
  }

  /** The relaxable states that are finite so far. */
  ghost function Progressed(relaxable: seq<string>, values: Table): set<string> {
    set s | s in relaxable && At(values, s).Fin?
  }

  lemma SubsetSize(a: set<string>, b: set<string>)
    requires a <= b
    ensures |a| <= |b|
    ensures a != b ==> |a| < |b|
  {
    assert b == a + (b - a);
  }

  lemma {:induction false} KeysSize(keys: seq<string>)
    requires StringOrder.Distinct(keys)
    ensures |set s | s in keys| == |keys|
  {
    if keys != [] {
      KeysSize(keys[1..]);
      assert (set s | s in keys) == {keys[0]} + (set s | s in keys[1..]);
    }
  }

  /** The tables between the passes of a run of the epsilon-stopped iteration: it starts at
      the initial table and stops after the first pass that moves no value by epsilon, or when
      the rounds are used up. */
  ghost predicate IsIteration(g: Graph, states: seq<string>, rounds: seq<Table>, deltas: seq<Value>,
                              maxIters: nat, epsilon: real, minEdge: real)
  {
    && |rounds| == |deltas| + 1 && |deltas| <= maxIters && rounds[0] == InitialTable(g)
    && (forall k :: 0 <= k < |deltas| ==> Sweeps(g, states, rounds[k], rounds[k + 1], deltas[k], minEdge))
    && (forall k :: 0 <= k < |deltas| - 1 ==> !Less(deltas[k], Fin(epsilon)))
    && (|deltas| < maxIters ==> deltas != [] && Less(deltas[|deltas| - 1], Fin(epsilon)))
  }

  /** The same while the iteration goes on. */
  ghost predicate Iterating(g: Graph, states: seq<string>, rounds: seq<Table>, deltas: seq<Value>, epsilon: real, minEdge: real) {
    && |rounds| == |deltas| + 1 && rounds[0] == InitialTable(g)
    && (forall k :: 0 <= k < |deltas| ==> Sweeps(g, states, rounds[k], rounds[k + 1], deltas[k], minEdge))
    && (forall k :: 0 <= k < |deltas| - 1 ==> !Less(deltas[k], Fin(epsilon)))
  }

  lemma IterationGrows(g: Graph, states: seq<string>, rounds: seq<Table>, deltas: seq<Value>, epsilon: real, minEdge: real,
                       after: Table, delta: Value)
    requires Iterating(g, states, rounds, deltas, epsilon, minEdge)
    requires deltas != [] ==> !Less(deltas[|deltas| - 1], Fin(epsilon))
    requires Sweeps(g, states, rounds[|deltas|], after, delta, minEdge)
    ensures Iterating(g, states, rounds + [after], deltas + [delta], epsilon, minEdge)
  {
    hide Sweeps, Less;
    var rs, ds := rounds + [after], deltas + [delta];
    forall k | 0 <= k < |ds| ensures Sweeps(g, states, rs[k], rs[k + 1], ds[k], minEdge) {
      assert rs[k] == rounds[k];
      if k < |deltas| {
        assert rs[k + 1] == rounds[k + 1] && ds[k] == deltas[k];
      }
    }
    forall k | 0 <= k < |ds| - 1 ensures !Less(ds[k], Fin(epsilon)) {
      assert ds[k] == deltas[k];
    }
  }

  /** The epsilon-stopped iteration. With enough rounds for every relaxable state the
      finite states end up closed, so the stop never cuts reachability off. */
  method Iterate(g: Graph, edgesFrom: map<string, seq<Edge>>, relaxable: seq<string>,
                 maxIters: nat, epsilon: real, minEdge: real)
    returns (values: Table, ghost rounds: seq<Table>, ghost deltas: seq<Value>)
    requires GroupedByFrom(g, edgesFrom) && IsRelaxable(g, relaxable)
    ensures TableOk(g, values, minEdge)
    ensures |relaxable| <= maxIters ==> Closed(g, Reached(values))
    ensures IsIteration(g, relaxable, rounds, deltas, maxIters, epsilon, minEdge) && rounds[|deltas|] == values
  {
    hide TableOk, LeadsInto, Group, IsRelaxable, Sweeps, InitialTable;
    InitialTableOk(g, minEdge);
    values := InitialTable(g);
    rounds, deltas := [values], [];
    for i := 0 to maxIters
      invariant TableOk(g, values, minEdge)
      invariant Settled(g, relaxable, Reached(values)) || |Progressed(relaxable, values)| >= i
      invariant |deltas| == i && |rounds| == i + 1 && rounds[i] == values
      invariant Iterating(g, relaxable, rounds, deltas, epsilon, minEdge)
      invariant deltas != [] ==> !Less(deltas[|deltas| - 1], Fin(epsilon))
    {
      ghost var was := values;
      var maxDelta;
      values, maxDelta := Sweep(g, edgesFrom, relaxable, values, minEdge);
      SweepProgress(g, relaxable, was, values, minEdge, i, maxDelta.Inf?);
      IterationGrows(g, relaxable, rounds, deltas, epsilon, minEdge, values, maxDelta);
      rounds, deltas := rounds + [values], deltas + [maxDelta];
      if maxDelta.Fin? && maxDelta.v < epsilon {
        break;
      }
    }
    if |relaxable| <= maxIters {
      EnoughRounds(g, relaxable, values);
      SettledIsClosed(g, relaxable, values, minEdge);
    }
  }

  lemma SweepProgress(g: Graph, relaxable: seq<string>, was: Table, values: Table, minEdge: real, i: nat, grew: bool)
    requires IsRelaxable(g, relaxable) && TableOk(g, was, minEdge) && TableOk(g, values, minEdge)
    requires Settled(g, relaxable, Reached(was)) || |Progressed(relaxable, was)| >= i
    requires Reached(was) <= Reached(values)
    requires forall s :: s in Reached(values) ==> s in Reached(was) || s in relaxable
    requires grew <==> Reached(was) != Reached(values)
    requires !grew ==> Settled(g, relaxable, Reached(values))
    ensures Settled(g, relaxable, Reached(values)) || |Progressed(relaxable, values)| >= i + 1
  {
    hide TableOk, LeadsInto, Group, IsRelaxable;
    if grew {
      if Settled(g, relaxable, Reached(was)) {
        SettledStaysReached(g, relaxable, was, values, minEdge);
      } else {
        var s :| s in Reached(values) && s !in Reached(was);
        assert s in Progressed(relaxable, values) && s !in Progressed(relaxable, was);
        assert forall x :: At(was, x).Fin? ==> x in Reached(values);
        SubsetSize(Progressed(relaxable, was), Progressed(relaxable, values));
      }
    }
  }

  /** Once nothing can move, no later table reaches further: it only holds solvable states. */
  lemma SettledStaysReached(g: Graph, relaxable: seq<string>, was: Table, values: Table, minEdge: real)
    requires IsRelaxable(g, relaxable) && TableOk(g, was, minEdge) && TableOk(g, values, minEdge)
    requires Settled(g, relaxable, Reached(was))
    ensures Reached(values) <= Reached(was)
  {
    SettledIsClosed(g, relaxable, was, minEdge);
  }

  lemma EnoughRounds(g: Graph, relaxable: seq<string>, values: Table)
    requires IsRelaxable(g, relaxable)
    requires Settled(g, relaxable, Reached(values)) || |Progressed(relaxable, values)| >= |relaxable|
    ensures Settled(g, relaxable, Reached(values))
  {
    var all := set s | s in relaxable;
    KeysSize(relaxable);
    SubsetSize(Progressed(relaxable, values), all);
    assert Progressed(relaxable, values) == all || Settled(g, relaxable, Reached(values));
    assert forall s :: s in relaxable ==> s in all;
  }

  // ---------------------------------------------------------------------
  // Greedy extraction
  // ---------------------------------------------------------------------

  datatype PlanStep = PlanStep(action: string, to: string, wall: real, probability: real)

  datatype DeferReason = UnknownStart | NoOutgoingEdges | UnreachableGoal

  datatype Plan =
    | Defer(reason: DeferReason)
    | AlreadyGoal
    | Planned(path: seq<PlanStep>, cost: real, support: int)

  /** The states a path visits, from the start to where it ends. */
  function Trail(start: string, path: seq<PlanStep>): (t: seq<string>)
    ensures |t| == |path| + 1
  {
    if path == [] then [start]
    else Trail(start, path[..|path| - 1]) + [path[|path| - 1].to]
  }

  /** `step` is the table's best move out of the non-goal `s`, along a recorded edge
      that succeeded and leaves `s`. */
  ghost predicate GreedyStep(g: Graph, values: Table, minEdge: real, s: string, step: PlanStep) {
    && !IsGoal(g, s)
    && IsBest(s, EdgesFrom(g.edges, s), values, minEdge,
              Best(step.action, Eval(ActionQ(s, EdgesFrom(g.edges, s), step.action, values, minEdge),
                                     step.wall, Some(step.to), step.probability, Support(g, s, step))))
    && (exists e :: e in g.edges && e.from == s && e.action == step.action && e.to == step.to
          && e.success > 0 && e.to != s)
  }

  function Support(g: Graph, s: string, step: PlanStep): int {
    Count(Group(g, s, step.action))
  }

  function Supports(g: Graph, start: string, path: seq<PlanStep>): seq<int> {
    if path == [] then []
    else
      var front := path[..|path| - 1];
      Supports(g, start, front) + [Support(g, Trail(start, front)[|front|], path[|front|])]
  }

  /** Chained greedy steps out of pairwise different states. */
  ghost predicate GoodPath(g: Graph, values: Table, minEdge: real, start: string, path: seq<PlanStep>) {
    && (forall k :: 0 <= k < |path| ==> GreedyStep(g, values, minEdge, Trail(start, path)[k], path[k]))
    && StringOrder.Distinct(Trail(start, path)[..|path|])
  }

  ghost predicate Revisits(start: string, path: seq<PlanStep>) {
    Trail(start, path)[|path|] in Trail(start, path)[..|path|]
  }

  ghost predicate IsMinSupport(supports: seq<int>, support: int) {
    if supports == [] then support == 0
    else support in supports && forall x :: x in supports ==> support <= x
  }

  /** The path ends at a goal or at a state it visited before. */
  ghost predicate Concluded(g: Graph, start: string, path: seq<PlanStep>) {
    path != [] && (IsGoal(g, path[|path| - 1].to) || Revisits(start, path))
  }

  /** The next move leads to the empty id, which Python treats as "no target". */
  ghost predicate BlankNext(g: Graph, values: Table, minEdge: real, start: string, path: seq<PlanStep>) {
    exists step :: GreedyStep(g, values, minEdge, Trail(start, path)[|path|], step) && step.to == ""
  }

  predicate NoBlankSteps(path: seq<PlanStep>) {
    forall k :: 0 <= k < |path| ==> path[k].to != ""
  }

  predicate NoBlankTargets(g: Graph) {
    forall e :: e in g.edges ==> e.to != ""
  }

  lemma NoBlankAhead(g: Graph, values: Table, minEdge: real, start: string, path: seq<PlanStep>)
    requires NoBlankTargets(g)
    ensures !BlankNext(g, values, minEdge, start, path)
  {
  }

  lemma GreedyStepIsUnique(g: Graph, values: Table, minEdge: real, s: string, a: PlanStep, b: PlanStep)
    requires GreedyStep(g, values, minEdge, s, a) && GreedyStep(g, values, minEdge, s, b)
    ensures a == b
  {
    hide IsBest, IsGoal;
    var es := EdgesFrom(g.edges, s);
    BestIsUnique(s, es, values, minEdge,
      Best(a.action, Eval(ActionQ(s, es, a.action, values, minEdge), a.wall, Some(a.to), a.probability, Support(g, s, a))),
      Best(b.action, Eval(ActionQ(s, es, b.action, values, minEdge), b.wall, Some(b.to), b.probability, Support(g, s, b))));
  }

  /** A concluded path has no blank move ahead of it. */
  lemma ConcludedNotBlank(g: Graph, values: Table, minEdge: real, start: string, path: seq<PlanStep>)
    requires GoodPath(g, values, minEdge, start, path) && NoBlankSteps(path)
    requires path != [] && (IsGoal(g, path[|path| - 1].to) || Revisits(start, path))
    ensures Concluded(g, start, path) && !BlankNext(g, values, minEdge, start, path)
  {
    hide IsBest, IsGoal, Group;
    var s := Trail(start, path)[|path|];
    forall step | GreedyStep(g, values, minEdge, s, step) ensures step.to != "" {
      if Revisits(start, path) {
        var k :| 0 <= k < |path| && Trail(start, path)[k] == s;
        GreedyStepIsUnique(g, values, minEdge, s, path[k], step);
      }
    }
  }

  /** A fault whose only repair was recorded under the empty id. */
  const BLANK_GRAPH := Graph(map["s" := Node("d", "flash:fail", 1), "" := Node("d", HEALTHY, 1)],
                             [Edge("s", "flash", "", 1, 1, 0)])

  lemma BlankLeadsInto(S: iset<string>)
    requires "" in S
    ensures LeadsInto("s", Group(BLANK_GRAPH, "s", "flash"), S)
  {
    hide Group, Count;
    BlankGroup();
    var e := Edge("s", "flash", "", 1, 1, 0);
    assert Group(BLANK_GRAPH, "s", "flash")[0] == e && Advances("s", e);
  }

  lemma BlankClosedHolds(S: iset<string>)
    requires Closed(BLANK_GRAPH, S)
    ensures "s" in S
  {
    hide Group, LeadsInto;
    assert IsGoal(BLANK_GRAPH, "");
    BlankLeadsInto(S);
  }

  lemma BlankGraphIsSolvable()
    ensures Solvable(BLANK_GRAPH, "s")
  {
    hide Closed;
    forall S | Closed(BLANK_GRAPH, S) ensures "s" in S {
      BlankClosedHolds(S);
    }
  }

  lemma BlankGraphStep(values: Table, minEdge: real, step: PlanStep)
    requires GreedyStep(BLANK_GRAPH, values, minEdge, "s", step)
    ensures step.to == ""
  {
    hide IsBest, IsGoal;
  }

  /** The empty id matters: the goal is reachable here, yet no step can be planned. */
  lemma BlankGraphPlansNothing(values: Table, minEdge: real, path: seq<PlanStep>)
    requires GoodPath(BLANK_GRAPH, values, minEdge, "s", path) && NoBlankSteps(path)
    ensures Solvable(BLANK_GRAPH, "s") && path == []
  {
    hide GreedyStep, Solvable;
    BlankGraphIsSolvable();
    TrailStarts("s", path);
    if path != [] {
      BlankGraphStep(values, minEdge, path[0]);
    }
  }

  lemma BlankGroup()
    ensures Group(BLANK_GRAPH, "s", "flash") == [Edge("s", "flash", "", 1, 1, 0)]
    ensures Count(Group(BLANK_GRAPH, "s", "flash")) == 1
  {
    var es := BLANK_GRAPH.edges;
    assert es[..0] == [];
    assert EdgesFrom(es, "s") == es;
  }

  lemma {:induction false} TrailStarts(start: string, path: seq<PlanStep>)
    ensures Trail(start, path)[0] == start
  {
    if path != [] {
      TrailStarts(start, path[..|path| - 1]);
    }
  }

  /** A finite non-goal state always has a finite best action with a finite nominal target. */
  lemma ReachedHasBest(g: Graph, values: Table, minEdge: real, s: string, b: Best)
    requires TableOk(g, values, minEdge) && !IsGoal(g, s) && At(values, s).Fin?
    requires IsBest(s, EdgesFrom(g.edges, s), values, minEdge, b)
    ensures b.ev.q.Fin? && b.ev.nominalTo.Some?
    ensures b.ev.support == Count(Group(g, s, b.action))
    ensures At(values, b.ev.nominalTo.value).Fin?
    ensures exists e :: e in g.edges && e.from == s && e.action == b.action
              && e.to == b.ev.nominalTo.value && e.success > 0 && e.to != s
  {
    var a :| AtMost(Q(s, Group(g, s, a), values, minEdge), At(values, s));
    assert a in Actions(EdgesFrom(g.edges, s));
    assert AtMost(b.ev.q, ActionQ(s, EdgesFrom(g.edges, s), a, values, minEdge));
    var es := Group(g, s, b.action);
    QFinite(s, es, values, minEdge);
    var i := NominalIsFirstMostLikely(s, es);
    var e :| e in es && Advances(s, e);
    assert es[i] in es;
    GroupMembers(g, s, b.action);
  }

  lemma ReachedHasEdges(g: Graph, values: Table, minEdge: real, s: string)
    requires TableOk(g, values, minEdge) && !IsGoal(g, s) && At(values, s).Fin?
    ensures EdgesFrom(g.edges, s) != []
  {
    var a :| AtMost(Q(s, Group(g, s, a), values, minEdge), At(values, s));
  }

  method Extract(g: Graph, edgesFrom: map<string, seq<Edge>>, values: Table, start: string,
                 minEdge: real, maxPathLen: nat)
    returns (path: seq<PlanStep>, support: int)
    requires GroupedByFrom(g, edgesFrom)
    requires TableOk(g, values, minEdge) && At(values, start).Fin? && !IsGoal(g, start)
    ensures PathOk(g, values, minEdge, start, maxPathLen, path, support)
  {
    hide TableOk, IsBest, IsGoal, Group, GreedyStep, Concluded, BlankNext, Supports, IsMinSupport, GoodPath;
    hide Trail, Revisits, NoBlankSteps;
    NoSteps(g, values, minEdge, start);
    path, support := [], 0;
    var seen := {start};
    var s := start;
    while |path| < maxPathLen
      invariant |path| <= maxPathLen && s == Trail(start, path)[|path|]
      invariant path == [] || s == path[|path| - 1].to
      invariant At(values, s).Fin?
      invariant GoodPath(g, values, minEdge, start, path)
      invariant forall x :: x in seen <==> x in Trail(start, path)
      invariant !Revisits(start, path)
      invariant IsMinSupport(Supports(g, start, path), support)
      invariant path == [] ==> !IsGoal(g, s)
      invariant NoBlankSteps(path)
      decreases maxPathLen - |path|
    {
      if IsGoal(g, s) {
        ConcludedNotBlank(g, values, minEdge, start, path);
        break;
      }
      if s !in edgesFrom || edgesFrom[s] == [] {
        ReachedHasEdges(g, values, minEdge, s);
        break;
      }
      var best := BestAction(s, edgesFrom[s], values, minEdge);
      var step := BestStep(g, values, minEdge, s, best.value);
      var ev := best.value.ev;
      if ev.q.Inf? || ev.nominalTo.None? || ev.nominalTo.value == "" {
        BlankNotConcluded(g, values, minEdge, start, path, step);
        break;
      }
      PathGrows(g, values, minEdge, start, path, step, support);
      support := if path == [] || ev.support < support then ev.support else support;
      path := path + [step];
      s := step.to;
      if s in seen {
        ConcludedNotBlank(g, values, minEdge, start, path);
        break;
      }
      seen := seen + {s};
    }
  }

  /** The step appended for the best action; neither an infinite Q nor a missing
      target can occur here. */
  method BestStep(g: Graph, values: Table, minEdge: real, s: string, b: Best) returns (step: PlanStep)
    requires TableOk(g, values, minEdge) && !IsGoal(g, s) && At(values, s).Fin?
    requires IsBest(s, EdgesFrom(g.edges, s), values, minEdge, b)
    ensures b.ev.q.Fin? && b.ev.nominalTo == Some(step.to)
    ensures GreedyStep(g, values, minEdge, s, step) && b.ev.support == Support(g, s, step)
    ensures At(values, step.to).Fin?
  {
    ReachedHasBest(g, values, minEdge, s, b);
    step := PlanStep(b.action, b.ev.nominalTo.value, b.ev.cost, b.ev.nominalP);
  }

  lemma NoSteps(g: Graph, values: Table, minEdge: real, start: string)
    ensures GoodPath(g, values, minEdge, start, []) && IsMinSupport(Supports(g, start, []), 0)
    ensures Trail(start, []) == [start] && !Revisits(start, []) && NoBlankSteps([])
  {
  }

  lemma BlankNotConcluded(g: Graph, values: Table, minEdge: real, start: string, path: seq<PlanStep>, step: PlanStep)
    requires GreedyStep(g, values, minEdge, Trail(start, path)[|path|], step) && step.to == ""
    requires !Revisits(start, path)
    ensures BlankNext(g, values, minEdge, start, path) && !Concluded(g, start, path)
  {
    hide IsGoal, IsBest, Group;
  }

  lemma TrailGrows(start: string, path: seq<PlanStep>, step: PlanStep)
    ensures Trail(start, path + [step]) == Trail(start, path) + [step.to]
    ensures Revisits(start, path + [step]) <==> step.to in Trail(start, path)
    ensures NoBlankSteps(path) && step.to != "" ==> NoBlankSteps(path + [step])
  {
    var grown := path + [step];
    assert grown[..|path|] == path;
  }

  lemma SupportsGrow(g: Graph, start: string, path: seq<PlanStep>, step: PlanStep)
    ensures Supports(g, start, path + [step]) == Supports(g, start, path) + [Support(g, Trail(start, path)[|path|], step)]
    ensures path == [] <==> Supports(g, start, path) == []
  {
    hide Support, Trail;
    assert (path + [step])[..|path|] == path;
  }

  lemma MinSupportGrows(supports: seq<int>, least: int, x: int)
    requires IsMinSupport(supports, least)
    ensures IsMinSupport(supports + [x], if supports == [] || x < least then x else least)
  {
  }

  lemma PathGrows(g: Graph, values: Table, minEdge: real, start: string, path: seq<PlanStep>, step: PlanStep,
                  least: int)
    requires GoodPath(g, values, minEdge, start, path) && !Revisits(start, path)
    requires IsMinSupport(Supports(g, start, path), least)
    requires GreedyStep(g, values, minEdge, Trail(start, path)[|path|], step)
    ensures GoodPath(g, values, minEdge, start, path + [step])
    ensures var support := Support(g, Trail(start, path)[|path|], step);
            IsMinSupport(Supports(g, start, path + [step]), if path == [] || support < least then support else least)
    ensures Trail(start, path + [step]) == Trail(start, path) + [step.to]
    ensures Revisits(start, path + [step]) <==> step.to in Trail(start, path)
    ensures NoBlankSteps(path) && step.to != "" ==> NoBlankSteps(path + [step])
  {
    hide GreedyStep, Supports, Support, IsMinSupport, GoodPath, NoBlankSteps;
    TrailGrows(start, path, step);
    SupportsGrow(g, start, path, step);
    MinSupportGrows(Supports(g, start, path), least, Support(g, Trail(start, path)[|path|], step));
    GoodPathGrows(g, values, minEdge, start, path, step);
  }

  lemma GoodPathGrows(g: Graph, values: Table, minEdge: real, start: string, path: seq<PlanStep>, step: PlanStep)
    requires GoodPath(g, values, minEdge, start, path) && !Revisits(start, path)
    requires GreedyStep(g, values, minEdge, Trail(start, path)[|path|], step)
    ensures GoodPath(g, values, minEdge, start, path + [step])
  {
    hide GreedyStep, Trail;
    TrailGrows(start, path, step);
    var before, after := Trail(start, path), Trail(start, path + [step]);
    assert after[..|path| + 1] == before && before == before[..|path|] + [before[|path|]];
  }

  // ---------------------------------------------------------------------
  // The planner
  // ---------------------------------------------------------------------

  function NonGoals(g: Graph, states: seq<string>): seq<string> {
    if states == [] then []
    else NonGoals(g, states[..|states| - 1]) + (if IsGoal(g, states[|states| - 1]) then [] else [states[|states| - 1]])
  }

  /** The states whose starting value is not already 0. */
  method SelectRelaxable(g: Graph, keys: seq<string>, values: Table) returns (relaxable: seq<string>)
    requires StringOrder.Distinct(keys)
    requires forall s :: s in keys <==> EdgesFrom(g.edges, s) != []
    requires values == InitialTable(g)
    ensures IsRelaxable(g, relaxable) && relaxable == NonGoals(g, keys)
  {
    relaxable := [];
    assert keys[..0] == [];
    for i := 0 to |keys|
      invariant StringOrder.Distinct(relaxable) && relaxable == NonGoals(g, keys[..i])
      invariant forall s :: s in relaxable <==> s in keys[..i] && !IsGoal(g, s)
    {
      assert keys[..i + 1][..i] == keys[..i];
      assert forall x :: x in keys[..i + 1] <==> x in keys[..i] || x == keys[i];
      assert keys[i] !in keys[..i];
      if At(values, keys[i]) != Fin(0.0) {
        relaxable := relaxable + [keys[i]];
      }
    }
    assert keys[..|keys|] == keys;
  }

  /** The non-goal states with outgoing edges can be listed in `n` entries. */
  ghost predicate AtMostSources(g: Graph, n: nat) {
    exists states: seq<string> ::
      |states| <= n && forall e :: e in g.edges && !IsGoal(g, e.from) ==> e.from in states
  }

  lemma {:induction false} SetOfSeqSize(s: seq<string>)
    ensures |set x | x in s| <= |s|
  {
    if s != [] {
      SetOfSeqSize(s[1..]);
      assert (set x | x in s) == {s[0]} + (set x | x in s[1..]);
    }
  }

  lemma SourcesBoundRelaxable(g: Graph, relaxable: seq<string>, n: nat)
    requires IsRelaxable(g, relaxable) && AtMostSources(g, n)
    ensures |relaxable| <= n
  {
    var states: seq<string> :|
      |states| <= n && forall e :: e in g.edges && !IsGoal(g, e.from) ==> e.from in states;
    forall s | s in relaxable ensures s in states {
      EdgesFromMembers(g.edges, s);
      assert EdgesFrom(g.edges, s)[0] in EdgesFrom(g.edges, s);
    }
    KeysSize(relaxable);
    SubsetSize(set s | s in relaxable, set s | s in states);
    SetOfSeqSize(states);
  }

  /** The table is what the iteration leaves, over the non-goal states with outgoing edges in
      the order in which they were first recorded. */
  ghost predicate IsIterated(g: Graph, maxIters: nat, epsilon: real, minEdge: real, table: Table) {
    exists rounds, deltas ::
      |rounds| == |deltas| + 1 && rounds[|deltas|] == table
      && IsIteration(g, NonGoals(g, FirstSeen(g.edges, From)), rounds, deltas, maxIters, epsilon, minEdge)
  }

  /** Which kind of plan is returned when. */
  ghost predicate KindOk(g: Graph, start: string, maxIters: nat, plan: Plan) {
    && (plan == Defer(UnknownStart) <==> start !in g.nodes)
    && (plan == AlreadyGoal <==> IsGoal(g, start))
    && (plan == Defer(NoOutgoingEdges) <==>
          start in g.nodes && !IsGoal(g, start) && EdgesFrom(g.edges, start) == [])
    // Completeness: the epsilon stop and the round limit never hide a solvable start.
    && (plan == Defer(UnreachableGoal) && AtMostSources(g, maxIters) ==> !Solvable(g, start))
    && (plan.Planned? ==> Solvable(g, start))
  }

  /** What the plan for `start` is, given the table the iteration left. */
  ghost predicate Answers(g: Graph, start: string, maxIters: nat, minEdge: real, maxPathLen: nat, plan: Plan, table: Table) {
    && KindOk(g, start, maxIters, plan)
    && (plan.Planned? ==>
          && TableOk(g, table, minEdge) && At(table, start) == Fin(plan.cost)
          && CostBounds(g, table, minEdge, start, plan.cost)
          && PathOk(g, table, minEdge, start, maxPathLen, plan.path, plan.support))
  }

  /** The reported cost lies between two bounds: it is at least the floor, every sub-solution
      and the optimal cost of any number of calls, and at least what any number of calls cost
      that follow the table. */
  ghost predicate CostBounds(g: Graph, table: Table, minEdge: real, start: string, cost: real) {
    && (minEdge >= 0.0 ==> cost >= minEdge)
    && (forall w: string -> real :: SubSolution(g, minEdge, w) ==> w(start) <= cost)
    && (minEdge >= 0.0 ==> forall n: nat :: Horizon(g, minEdge, n, start) <= cost)
    && (exists pi :: Descends(g, table, minEdge, pi))
    && (minEdge >= 0.0 ==>
          forall pi, n: nat :: Descends(g, table, minEdge, pi) ==> PolicyCost(g, minEdge, pi, n, start) <= cost)
  }

  ghost predicate PathOk(g: Graph, table: Table, minEdge: real, start: string, maxPathLen: nat,
                         path: seq<PlanStep>, support: int)
  {
    && |path| <= maxPathLen && GoodPath(g, table, minEdge, start, path)
    && IsMinSupport(Supports(g, start, path), support)
    && NoBlankSteps(path)
    && (|path| < maxPathLen ==> (Concluded(g, start, path) <==> !BlankNext(g, table, minEdge, start, path)))
  }

  method PlanToGoal(g: Graph, start: string, maxIters: nat, epsilon: real, minEdge: real, maxPathLen: nat)
    returns (plan: Plan, ghost table: Table)
    ensures KindOk(g, start, maxIters, plan)
    ensures Answers(g, start, maxIters, minEdge, maxPathLen, plan, table)
    ensures plan.Planned? || plan == Defer(UnreachableGoal) ==> IsIterated(g, maxIters, epsilon, minEdge, table)
  {
    hide CostBounds, PathOk, FirstSeen, Sweeps, InitialTable;
    hide TableOk, SubSolution, Horizon, GoodPath, Solvable, EdgesFrom, Revisits, IsMinSupport, Supports;
    hide NoBlankTargets, AtMostSources, IsRelaxable, Closed, Concluded, BlankNext;
    table := map[];
    if start !in g.nodes {
      return Defer(UnknownStart), table;
    }
    if IsGoalNode(g.nodes[start]) {
      return AlreadyGoal, table;
    }
    var keys, edgesFrom := GroupBy(g.edges, From);
    GroupsByFrom(g.edges, keys, edgesFrom);
    hide IsGrouping;
    if start !in edgesFrom || edgesFrom[start] == [] {
      return Defer(NoOutgoingEdges), table;
    }
    assert EdgesFrom(g.edges, start) != [];
    var relaxable := SelectRelaxable(g, keys, InitialTable(g));
    var values, rounds, deltas := Iterate(g, edgesFrom, relaxable, maxIters, epsilon, minEdge);
    table := values;
    if At(values, start).Inf? {
      if AtMostSources(g, maxIters) {
        SourcesBoundRelaxable(g, relaxable, maxIters);
        ClosedCoversSolvable(g, values, start);
      }
      return Defer(UnreachableGoal), table;
    }
    PlannedBounds(g, values, minEdge, start);
    var path, support := Extract(g, edgesFrom, values, start, minEdge, maxPathLen);
    plan := Planned(path, At(values, start).v, support);
  }

  /** Without edges to the empty id, every plan below the length cap ends at a goal or a revisit. */
  lemma PlansConclude(g: Graph, start: string, maxIters: nat, minEdge: real, maxPathLen: nat, plan: Plan, table: Table)
    requires Answers(g, start, maxIters, minEdge, maxPathLen, plan, table)
    requires plan.Planned? && |plan.path| < maxPathLen && NoBlankTargets(g)
    ensures Concluded(g, start, plan.path)
  {
    hide CostBounds, TableOk, Solvable, GoodPath, Concluded;
    NoBlankAhead(g, table, minEdge, start, plan.path);
  }

  /** With an edge to the empty id a reachable goal can get a plan without steps. */
  method PlanBlankGraph() returns (plan: Plan)
    ensures plan.Planned? && plan.path == []
  {
    hide Answers;
    ghost var table;
    plan, table := PlanToGoal(BLANK_GRAPH, "s", 1000, 0.001, 1.0, 32);
    BlankGraphAnswer(plan, table);
  }

  lemma BlankGraphAnswer(plan: Plan, table: Table)
    requires Answers(BLANK_GRAPH, "s", 1000, 1.0, 32, plan, table)
    ensures plan.Planned? && plan.path == []
  {
    BlankGraphIsSolvable();
    BlankGraphSources();
    hide CostBounds, TableOk, Solvable, GoodPath, AtMostSources, EdgesFrom, IsGoal;
    match plan
    case Defer(UnknownStart) =>
    case Defer(NoOutgoingEdges) =>
    case Defer(UnreachableGoal) =>
    case AlreadyGoal =>
    case Planned(path, _, _) =>
      BlankGraphPlansNothing(table, 1.0, path);
  }

  lemma BlankGraphSources()
    ensures AtMostSources(BLANK_GRAPH, 1000)
    ensures "s" in BLANK_GRAPH.nodes && !IsGoal(BLANK_GRAPH, "s") && EdgesFrom(BLANK_GRAPH.edges, "s") != []
  {
    var states := ["s"];
    assert forall e :: e in BLANK_GRAPH.edges ==> e.from in states;
    assert BLANK_GRAPH.edges[..0] == [];
    assert EdgesFrom(BLANK_GRAPH.edges, "s") == BLANK_GRAPH.edges;
  }

  lemma ClosedCoversSolvable(g: Graph, values: Table, s: string)
    requires Closed(g, Reached(values)) && At(values, s).Inf?
    ensures !Solvable(g, s)
  {
    assert s !in Reached(values);
  }

  lemma PlannedBounds(g: Graph, values: Table, minEdge: real, start: string)
    requires TableOk(g, values, minEdge) && At(values, start).Fin? && !IsGoal(g, start)
    ensures Solvable(g, start) && CostBounds(g, values, minEdge, start, At(values, start).v)
  {
    hide SubSolution, Horizon, Descends, PolicyCost;
    assert start in Reached(values);
    var cost := At(values, start).v;
    forall w: string -> real | SubSolution(g, minEdge, w) ensures w(start) <= cost {
      assert Dominates(values, w);
      assert AtMost(Fin(w(start)), At(values, start));
    }
    forall n: nat | minEdge >= 0.0 ensures Horizon(g, minEdge, n, start) <= cost {
      HorizonIsSubSolution(g, minEdge, n);
      assert HorizonFrom(g, minEdge, n)(start) <= cost;
    }
    SomethingDescends(g, values, minEdge);
    forall pi, n: nat | minEdge >= 0.0 && Descends(g, values, minEdge, pi) ensures PolicyCost(g, minEdge, pi, n, start) <= cost {
      FollowingCostsAtMost(g, values, minEdge, pi, n, start);
    }
  }

  // ---------------------------------------------------------------------
  // In place against simultaneous updates
  // ---------------------------------------------------------------------

  function Least(a: Value, b: Value): Value {
    if Less(b, a) then b else a
  }

  /** The least score over the actions that occur in `es`. */
  ghost function BestQ(g: Graph, s: string, es: seq<Edge>, values: Table, minEdge: real): Value {
    if es == [] then Inf
    else Least(BestQ(g, s, es[..|es| - 1], values, minEdge), Q(s, Group(g, s, es[|es| - 1].action), values, minEdge))
  }

  /** One simultaneous update of all values from the same table. */
  ghost function Updated(g: Graph, values: Table, minEdge: real): Table {
    map s | s in values.Keys + (set e | e in g.edges :: e.from) ::
      if IsGoal(g, s) then At(values, s) else Least(At(values, s), BestQ(g, s, EdgesFrom(g.edges, s), values, minEdge))
  }

  /** The table after `n` rounds of simultaneous updates. */
  ghost function Simultaneous(g: Graph, minEdge: real, n: nat): Table {
    if n == 0 then InitialTable(g) else Updated(g, Simultaneous(g, minEdge, n - 1), minEdge)
  }

  /** It is a lower bound of the scores, and one of them unless no action occurs. */
  lemma {:induction false} BestQIsLeast(g: Graph, s: string, es: seq<Edge>, values: Table, minEdge: real)
    ensures forall e :: e in es ==> AtMost(BestQ(g, s, es, values, minEdge), Q(s, Group(g, s, e.action), values, minEdge))
    ensures BestQ(g, s, es, values, minEdge) == Inf
            || exists e :: e in es && BestQ(g, s, es, values, minEdge) == Q(s, Group(g, s, e.action), values, minEdge)
  {
    hide Q, Group;
    if es != [] {
      var front, last := es[..|es| - 1], es[|es| - 1];
      BestQIsLeast(g, s, front, values, minEdge);
      assert last in es && forall e :: e in es ==> e in front || e == last;
    }
  }

  /** Goals keep their value; every other state gets the least of its value and its scores. */
  lemma UpdatedAt(g: Graph, values: Table, minEdge: real, s: string)
    ensures var v, q := At(values, s), BestQ(g, s, EdgesFrom(g.edges, s), values, minEdge);
            var z := At(Updated(g, values, minEdge), s);
            && (IsGoal(g, s) ==> z == v)
            && (!IsGoal(g, s) ==> AtMost(z, v) && AtMost(z, q) && (z == v || z == q))
  {
    hide Q;
    EdgesFromMembers(g.edges, s);
    var es := EdgesFrom(g.edges, s);
    if es != [] {
      assert es[0] in es;
    }
  }

  lemma {:induction false} BestQMonotone(g: Graph, s: string, es: seq<Edge>, lower: Table, upper: Table, minEdge: real)
    requires Below(lower, upper)
    ensures AtMost(BestQ(g, s, es, lower, minEdge), BestQ(g, s, es, upper, minEdge))
  {
    hide Q, Below, Group;
    if es != [] {
      BestQMonotone(g, s, es[..|es| - 1], lower, upper, minEdge);
      QMonotone(s, Group(g, s, es[|es| - 1].action), lower, upper, minEdge);
    }
  }

  /** No occurring action scores below the least, and the best one attains it. */
  lemma {:induction false} BestQIsAttained(g: Graph, s: string, es: seq<Edge>, values: Table, minEdge: real, q: Value)
    requires forall e :: e in es ==> AtMost(q, Q(s, Group(g, s, e.action), values, minEdge))
    ensures AtMost(q, BestQ(g, s, es, values, minEdge))
  {
    hide Q, Group;
    if es != [] {
      assert es[|es| - 1] in es;
      BestQIsAttained(g, s, es[..|es| - 1], values, minEdge, q);
    }
  }

  lemma RelaxesBelowBestQ(g: Graph, s: string, before: Table, after: Table, minEdge: real)
    requires Relaxes(g, s, before, after, minEdge)
    ensures Below(after, before)
    ensures AtMost(At(after, s), BestQ(g, s, EdgesFrom(g.edges, s), before, minEdge))
  {
    hide Q, EdgesOf, EdgesFrom;
    var es := EdgesFrom(g.edges, s);
    var b :| IsBest(s, es, before, minEdge, b)
             && after == if Less(b.ev.q, At(before, s)) then before[s := b.ev.q] else before;
    EveryEdgeHasAction(es);
    forall e | e in es ensures AtMost(b.ev.q, Q(s, Group(g, s, e.action), before, minEdge)) {
      assert e.action in Actions(es);
      assert AtMost(b.ev.q, ActionQ(s, es, e.action, before, minEdge));
    }
    BestQIsAttained(g, s, es, before, minEdge, b.ev.q);
  }

  lemma BelowTransitive(a: Table, b: Table, c: Table)
    requires Below(a, b) && Below(b, c)
    ensures Below(a, c)
  {
    forall s ensures AtMost(At(a, s), At(c, s)) {
      assert AtMost(At(a, s), At(b, s)) && AtMost(At(b, s), At(c, s));
    }
  }

  /** After the first `i` relaxations of a pass: below the start, and below the best scores of
      any table above the start, for the states relaxed so far. */
  lemma {:induction false} PassBeats(g: Graph, states: seq<string>, tables: seq<Table>, most: Value, minEdge: real,
                                     upper: Table, i: nat)
    requires IsPass(g, states, tables, most, minEdge) && Below(tables[0], upper) && i <= |states|
    ensures Below(tables[i], upper)
    ensures forall k :: 0 <= k < i ==>
              AtMost(At(tables[i], states[k]), BestQ(g, states[k], EdgesFrom(g.edges, states[k]), upper, minEdge))
  {
    hide Relaxes, BestQ, EdgesFrom;
    if i > 0 {
      PassBeats(g, states, tables, most, minEdge, upper, i - 1);
      var s := states[i - 1];
      RelaxesBelowBestQ(g, s, tables[i - 1], tables[i - 1 + 1], minEdge);
      BelowTransitive(tables[i], tables[i - 1], upper);
      BestQMonotone(g, s, EdgesFrom(g.edges, s), tables[i - 1], upper, minEdge);
      forall k | 0 <= k < i
        ensures AtMost(At(tables[i], states[k]), BestQ(g, states[k], EdgesFrom(g.edges, states[k]), upper, minEdge))
      {
        if k < i - 1 {
          assert AtMost(At(tables[i], states[k]), At(tables[i - 1], states[k]));
        }
      }
    }
  }

  lemma SweepBeats(g: Graph, states: seq<string>, before: Table, after: Table, most: Value, minEdge: real, upper: Table)
    requires IsRelaxable(g, states) && Sweeps(g, states, before, after, most, minEdge) && Below(before, upper)
    ensures Below(after, Updated(g, upper, minEdge))
  {
    hide BestQ, IsPass;
    var tables :| |tables| == |states| + 1 && IsPass(g, states, tables, most, minEdge)
                  && tables[0] == before && tables[|states|] == after;
    PassBeats(g, states, tables, most, minEdge, upper, |states|);
    forall s ensures AtMost(At(after, s), At(Updated(g, upper, minEdge), s)) {
      assert AtMost(At(after, s), At(upper, s));
      if s in states {
        var k :| 0 <= k < |states| && states[k] == s;
        assert AtMost(At(after, states[k]), BestQ(g, states[k], EdgesFrom(g.edges, states[k]), upper, minEdge));
      } else {
        NoScoreWithoutEdges(g, s, upper, minEdge);
      }
    }
  }

  lemma NoScoreWithoutEdges(g: Graph, s: string, values: Table, minEdge: real)
    ensures EdgesFrom(g.edges, s) == [] ==> BestQ(g, s, EdgesFrom(g.edges, s), values, minEdge) == Inf
  {
  }

  /** Round for round the in-place iteration is at least as good as simultaneous updates. */
  lemma {:induction false} InPlaceBeatsSimultaneous(g: Graph, states: seq<string>, rounds: seq<Table>, deltas: seq<Value>,
                                                    maxIters: nat, epsilon: real, minEdge: real, n: nat)
    requires IsRelaxable(g, states) && IsIteration(g, states, rounds, deltas, maxIters, epsilon, minEdge)
    requires n <= |deltas|
    ensures Below(rounds[n], Simultaneous(g, minEdge, n))
  {
    hide Sweeps, Updated, IsRelaxable, InitialTable;
    if n > 0 {
      InPlaceBeatsSimultaneous(g, states, rounds, deltas, maxIters, epsilon, minEdge, n - 1);
      assert Sweeps(g, states, rounds[n - 1], rounds[n - 1 + 1], deltas[n - 1], minEdge);
      SweepBeats(g, states, rounds[n - 1], rounds[n], deltas[n - 1], minEdge, Simultaneous(g, minEdge, n - 1));
    }
  }

  lemma {:induction false} FirstSeenSources(es: seq<Edge>)
    ensures StringOrder.Distinct(FirstSeen(es, From))
    ensures forall s :: s in FirstSeen(es, From) <==> EdgesFrom(es, s) != []
  {
    if es != [] {
      var n := |es| - 1;
      FirstSeenSources(es[..n]);
      DistinctGrows(FirstSeen(es[..n], From), es[n].from);
    }
  }

  lemma {:induction false} NonGoalsMembers(g: Graph, states: seq<string>)
    requires StringOrder.Distinct(states)
    ensures StringOrder.Distinct(NonGoals(g, states))
    ensures forall s :: s in NonGoals(g, states) <==> s in states && !IsGoal(g, s)
  {
    hide IsGoal;
    if states != [] {
      var n := |states| - 1;
      NonGoalsMembers(g, states[..n]);
      DistinctGrows(NonGoals(g, states[..n]), states[n]);
      assert forall s :: s in states <==> s in states[..n] || s == states[n];
    }
  }

  /** Some number of rounds of simultaneous updates bounds the final table from above: the one
      the iteration took. */
  lemma IteratedBeatsSimultaneous(g: Graph, maxIters: nat, epsilon: real, minEdge: real, table: Table) returns (n: nat)
    requires IsIterated(g, maxIters, epsilon, minEdge, table)
    ensures n <= maxIters && Below(table, Simultaneous(g, minEdge, n))
    ensures maxIters > 0 ==> n > 0
  {
    hide Below, Simultaneous, Sweeps;
    var states := NonGoals(g, FirstSeen(g.edges, From));
    FirstSeenSources(g.edges);
    NonGoalsMembers(g, FirstSeen(g.edges, From));
    hide IsGoal, NonGoals, FirstSeen, EdgesFrom, StringOrder.Distinct, InitialTable;
    var rounds, deltas :| |rounds| == |deltas| + 1 && rounds[|deltas|] == table
                          && IsIteration(g, states, rounds, deltas, maxIters, epsilon, minEdge);
    n := |deltas|;
    InPlaceBeatsSimultaneous(g, states, rounds, deltas, maxIters, epsilon, minEdge, n);
  }

  // ---------------------------------------------------------------------
  // The cost of following the table
  // ---------------------------------------------------------------------

  /** `pi` picks, at every finite non-goal state, an action that scores at most its value. */
  ghost predicate Descends(g: Graph, values: Table, minEdge: real, pi: string -> string) {
    forall s :: !IsGoal(g, s) && At(values, s).Fin? ==>
      AtMost(Q(s, Group(g, s, pi(s)), values, minEdge), At(values, s))
  }

  /** The expected cost of the next `n` tool calls from `s` when `pi` chooses them. */
  ghost function PolicyCost(g: Graph, minEdge: real, pi: string -> string, n: nat, s: string): real {
    if n == 0 || IsGoal(g, s) then 0.0
    else CallCost(s, Group(g, s, pi(s)), (x: string) => PolicyCost(g, minEdge, pi, n - 1, x), minEdge)
  }

  /** Each call costs its step, and then what the calls behind it cost; none is due at a goal. */
  lemma PolicyCostStep(g: Graph, minEdge: real, pi: string -> string, n: nat, s: string, w: string -> real)
    requires forall x :: w(x) == PolicyCost(g, minEdge, pi, n, x)
    ensures PolicyCost(g, minEdge, pi, 0, s) == 0.0
    ensures IsGoal(g, s) ==> PolicyCost(g, minEdge, pi, n + 1, s) == 0.0
    ensures !IsGoal(g, s) && Count(Group(g, s, pi(s))) > 0 ==>
              PolicyCost(g, minEdge, pi, n + 1, s) == Backup(s, Group(g, s, pi(s)), w, minEdge)
    ensures !IsGoal(g, s) && Count(Group(g, s, pi(s))) <= 0 ==> PolicyCost(g, minEdge, pi, n + 1, s) == minEdge + w(s)
  {
    hide Group, IsGoal, StepCost, Mass;
    var v := (x: string) => PolicyCost(g, minEdge, pi, n, x);
    if Count(Group(g, s, pi(s))) > 0 {
      ExpectedMonotone(s, Group(g, s, pi(s)), Count(Group(g, s, pi(s))), v, w);
      ExpectedMonotone(s, Group(g, s, pi(s)), Count(Group(g, s, pi(s))), w, v);
    }
  }

  lemma SomethingDescends(g: Graph, values: Table, minEdge: real)
    requires AboveBestQ(g, values, minEdge)
    ensures exists pi :: Descends(g, values, minEdge, pi)
  {
    hide Q, IsGoal;
    var pi := (s: string) => Descent(g, values, minEdge, s);
    assert Descends(g, values, minEdge, pi);
  }

  /** Some action that scores at most the state's value, if there is one. */
  ghost function Descent(g: Graph, values: Table, minEdge: real, s: string): string {
    if exists a :: AtMost(Q(s, Group(g, s, a), values, minEdge), At(values, s)) then
      var a :| AtMost(Q(s, Group(g, s, a), values, minEdge), At(values, s)); a
    else ""
  }

  /** The best action of a finite state descends, so every step of a plan does. */
  lemma GreedyStepDescends(g: Graph, values: Table, minEdge: real, s: string, step: PlanStep)
    requires AboveBestQ(g, values, minEdge) && At(values, s).Fin? && GreedyStep(g, values, minEdge, s, step)
    ensures AtMost(Q(s, Group(g, s, step.action), values, minEdge), At(values, s))
  {
    hide Q;
    var a :| AtMost(Q(s, Group(g, s, a), values, minEdge), At(values, s));
    InfiniteIfNoEdges(s, Group(g, s, a), values, minEdge);
    assert a in Actions(EdgesFrom(g.edges, s));
  }

  lemma InfiniteIfNoEdges(s: string, es: seq<Edge>, values: Table, minEdge: real)
    ensures es == [] ==> Q(s, es, values, minEdge).Inf?
  {
  }

  /** `w` is at most the table wherever the advancing edges lead. */
  ghost predicate BelowAhead(s: string, es: seq<Edge>, values: Table, w: string -> real) {
    forall e :: e in es && Advances(s, e) ==> At(values, e.to).Fin? && w(e.to) <= At(values, e.to).v
  }

  lemma {:induction false} ExpectedAtMostOnward(s: string, es: seq<Edge>, c: int, values: Table, w: string -> real)
    requires c > 0 && BelowAhead(s, es, values, w)
    ensures Onward(s, es, c, values).Fin? && Expected(s, es, c, w) <= Onward(s, es, c, values).v
  {
    hide Times, Prob;
    if es != [] {
      var front, e := es[..|es| - 1], es[|es| - 1];
      assert e in es && forall x :: x in front ==> x in es;
      ExpectedAtMostOnward(s, front, c, values, w);
      ProbSign(e, c);
      if Advances(s, e) {
        TimesMonotone(Prob(e, c), w(e.to), At(values, e.to).v);
      }
    }
  }

  /** One backed-up call: with Q at most v, and everything ahead at most the table. */
  lemma CallCostAtMost(s: string, es: seq<Edge>, values: Table, w: string -> real, minEdge: real, v: real)
    requires AtMost(Q(s, es, values, minEdge), Fin(v)) && BelowAhead(s, es, values, w) && w(s) <= v
    ensures CallCost(s, es, w, minEdge) <= v
  {
    var c := Count(es);
    var p := Clamp(Mass(s, es, c));
    ExpectedAtMostOnward(s, es, c, values, w);
    var a := StepCost(es, minEdge) + Onward(s, es, c, values).v;
    hide Expected, Onward, Mass, StepCost, Times;
    SelfLoopTotal(a, p, v);
    TimesMonotone(1.0 - p, w(s), v);
  }

  lemma SelfLoopTotal(a: real, p: real, v: real)
    requires 0.0 < p && a / p <= v
    ensures a + Times(1.0 - p, v) <= v
  {
    assert Times(1.0 - p, v) == v - p * v;
    assert (a / p) * p == a;
    assert (v - a / p) * p >= 0.0;
  }

  ghost predicate WithinTable(values: Table, w: string -> real) {
    forall x :: At(values, x).Fin? ==> w(x) <= At(values, x).v
  }

  lemma FollowedCall(g: Graph, values: Table, minEdge: real, pi: string -> string, w: string -> real, s: string)
    requires Descends(g, values, minEdge, pi) && !IsGoal(g, s) && At(values, s).Fin? && WithinTable(values, w)
    ensures CallCost(s, Group(g, s, pi(s)), w, minEdge) <= At(values, s).v
  {
    hide Q, CallCost, Group, IsGoal;
    var es := Group(g, s, pi(s));
    assert AtMost(Q(s, es, values, minEdge), At(values, s));
    QFinite(s, es, values, minEdge);
    forall e | e in es && Advances(s, e) ensures At(values, e.to).Fin? {
      assert e.to in Reached(values);
    }
    CallCostAtMost(s, es, values, w, minEdge, At(values, s).v);
  }

  /** Over any number of calls, following the table costs no more than it says. */
  lemma {:induction false} FollowingCostsAtMost(g: Graph, values: Table, minEdge: real, pi: string -> string, n: nat, s: string)
    requires minEdge >= 0.0 && GoalsAtZero(g, values) && AboveFloor(g, values, minEdge)
    requires Descends(g, values, minEdge, pi) && At(values, s).Fin?
    ensures PolicyCost(g, minEdge, pi, n, s) <= At(values, s).v
    decreases n
  {
    hide Q, CallCost, Descends, Group;
    if n > 0 && !IsGoal(g, s) {
      var w := (x: string) => PolicyCost(g, minEdge, pi, n - 1, x);
      forall x | At(values, x).Fin? ensures w(x) <= At(values, x).v {
        FollowingCostsAtMost(g, values, minEdge, pi, n - 1, x);
      }
      FollowedCall(g, values, minEdge, pi, w, s);
    }
  }

  // ---------------------------------------------------------------------
  // The true expected cost
  // ---------------------------------------------------------------------

  /** The cheapest expected cost of the next `n` tool calls from `s`, when every call may
      be chosen freely: nothing is due at a goal, a state without edges costs the floor. */
  ghost function Horizon(g: Graph, minEdge: real, n: nat, s: string): real
    decreases n, 0
  {
    if n == 0 || IsGoal(g, s) then 0.0
    else if EdgesFrom(g.edges, s) == [] then minEdge + Horizon(g, minEdge, n - 1, s)
    else Cheapest(g, minEdge, n, s, EdgesFrom(g.edges, s))
  }

  /** The least backed-up cost over the actions that occur in the non-empty `es`. */
  ghost function Cheapest(g: Graph, minEdge: real, n: nat, s: string, es: seq<Edge>): real
    requires n > 0 && es != []
    decreases n - 1, 1, |es|
  {
    var a := es[|es| - 1].action;
    var w := (x: string) => Horizon(g, minEdge, n - 1, x);
    var last := CallCost(s, Group(g, s, a), w, minEdge);
    if |es| == 1 then last
    else
      var rest := Cheapest(g, minEdge, n, s, es[..|es| - 1]);
      if rest < last then rest else last
  }

  /** The cost of one call and what follows; a call never observed only costs the floor. */
  ghost function CallCost(s: string, es: seq<Edge>, w: string -> real, minEdge: real): real {
    if Count(es) > 0 then Backup(s, es, w, minEdge) else minEdge + w(s)
  }

  ghost predicate PointwiseAtMost(w: string -> real, w': string -> real) {
    forall x :: w(x) <= w'(x)
  }

  lemma {:induction false} ExpectedMonotone(s: string, es: seq<Edge>, c: int, w: string -> real, w': string -> real)
    requires c > 0 && PointwiseAtMost(w, w')
    ensures Expected(s, es, c, w) <= Expected(s, es, c, w')
  {
    hide Times, Prob;
    if es != [] {
      var e := es[|es| - 1];
      ExpectedMonotone(s, es[..|es| - 1], c, w, w');
      ProbSign(e, c);
      if Advances(s, e) {
        TimesMonotone(Prob(e, c), w(e.to), w'(e.to));
      }
    }
  }

  lemma CallCostMonotone(s: string, es: seq<Edge>, w: string -> real, w': string -> real, minEdge: real)
    requires PointwiseAtMost(w, w')
    ensures CallCost(s, es, w, minEdge) <= CallCost(s, es, w', minEdge)
  {
    if Count(es) > 0 {
      hide StepCost, Expected, Mass, Times;
      ExpectedMonotone(s, es, Count(es), w, w');
      TimesMonotone(1.0 - Clamp(Mass(s, es, Count(es))), w(s), w'(s));
    }
  }

  ghost function HorizonFrom(g: Graph, minEdge: real, n: nat): string -> real {
    x => Horizon(g, minEdge, n, x)
  }

  lemma {:induction false} CheapestMonotone(g: Graph, minEdge: real, n: nat, s: string, es: seq<Edge>)
    requires n > 0 && es != []
    requires PointwiseAtMost(HorizonFrom(g, minEdge, n - 1), HorizonFrom(g, minEdge, n))
    ensures Cheapest(g, minEdge, n, s, es) <= Cheapest(g, minEdge, n + 1, s, es)
    decreases |es|
  {
    var last := Group(g, s, es[|es| - 1].action);
    CallCostMonotone(s, last, HorizonFrom(g, minEdge, n - 1), HorizonFrom(g, minEdge, n), minEdge);
    if |es| > 1 {
      CheapestMonotone(g, minEdge, n, s, es[..|es| - 1]);
    }
  }

  ghost predicate NoneNegative(w: string -> real) {
    forall x :: w(x) >= 0.0
  }

  lemma {:induction false} ExpectedNonNegative(s: string, es: seq<Edge>, c: int, w: string -> real)
    requires c > 0 && NoneNegative(w)
    ensures Expected(s, es, c, w) >= 0.0
  {
    hide Times, Prob;
    if es != [] {
      var e := es[|es| - 1];
      ExpectedNonNegative(s, es[..|es| - 1], c, w);
      ProbSign(e, c);
      if Advances(s, e) {
        TimesSign(Prob(e, c), w(e.to));
      }
    }
  }

  lemma CallCostNonNegative(s: string, es: seq<Edge>, w: string -> real, minEdge: real)
    requires minEdge >= 0.0 && NoneNegative(w)
    ensures CallCost(s, es, w, minEdge) >= 0.0
  {
    if Count(es) > 0 {
      hide Expected, Mass, Times;
      ExpectedNonNegative(s, es, Count(es), w);
      TimesSign(1.0 - Clamp(Mass(s, es, Count(es))), w(s));
    }
  }

  lemma {:induction false} CheapestNonNegative(g: Graph, minEdge: real, n: nat, s: string, es: seq<Edge>)
    requires n > 0 && es != [] && minEdge >= 0.0
    requires NoneNegative(HorizonFrom(g, minEdge, n - 1))
    ensures Cheapest(g, minEdge, n, s, es) >= 0.0
    decreases |es|
  {
    CallCostNonNegative(s, Group(g, s, es[|es| - 1].action), HorizonFrom(g, minEdge, n - 1), minEdge);
    if |es| > 1 {
      CheapestNonNegative(g, minEdge, n, s, es[..|es| - 1]);
    }
  }

  lemma {:induction false} CheapestIsLeast(g: Graph, minEdge: real, n: nat, s: string, es: seq<Edge>, e: Edge)
    requires n > 0 && e in es
    ensures Cheapest(g, minEdge, n, s, es)
              <= CallCost(s, Group(g, s, e.action), HorizonFrom(g, minEdge, n - 1), minEdge)
    decreases |es|
  {
    if |es| > 1 && e != es[|es| - 1] {
      CheapestIsLeast(g, minEdge, n, s, es[..|es| - 1], e);
    }
    assert |es| > 1 || e == es[|es| - 1];
  }

  /** Looking further ahead never makes the bench cheaper. */
  lemma {:induction false} HorizonGrows(g: Graph, minEdge: real, n: nat)
    requires minEdge >= 0.0
    ensures PointwiseAtMost(HorizonFrom(g, minEdge, n), HorizonFrom(g, minEdge, n + 1))
  {
    if n > 0 {
      HorizonGrows(g, minEdge, n - 1);
    }
    forall s ensures Horizon(g, minEdge, n, s) <= Horizon(g, minEdge, n + 1, s) {
      var es := EdgesFrom(g.edges, s);
      if !IsGoal(g, s) {
        if n == 0 {
          if es != [] {
            CheapestNonNegative(g, minEdge, 1, s, es);
          }
        } else if es != [] {
          CheapestMonotone(g, minEdge, n, s, es);
        } else {
          assert HorizonFrom(g, minEdge, n - 1)(s) <= HorizonFrom(g, minEdge, n)(s);
        }
      }
    }
  }

  /** Every finite-horizon optimal cost is a sub-solution, so no plan reports less. */
  lemma HorizonIsSubSolution(g: Graph, minEdge: real, n: nat)
    requires minEdge >= 0.0
    ensures SubSolution(g, minEdge, HorizonFrom(g, minEdge, n))
  {
    var w := HorizonFrom(g, minEdge, n);
    HorizonGrows(g, minEdge, n);
    forall s, a | !IsGoal(g, s) && Count(Group(g, s, a)) > 0
      ensures w(s) <= Backup(s, Group(g, s, a), w, minEdge)
    {
      GroupMembers(g, s, a);
      EdgesFromMembers(g.edges, s);
      assert Group(g, s, a) != [];
      var e := Group(g, s, a)[0];
      assert e in Group(g, s, a);
      CheapestIsLeast(g, minEdge, n + 1, s, EdgesFrom(g.edges, s), e);
      assert w(s) <= HorizonFrom(g, minEdge, n + 1)(s);
    }
  }

  // ---------------------------------------------------------------------
  // Recorded graphs
  // ---------------------------------------------------------------------

  lemma {:induction false} MassIsSuccessShare(s: string, es: seq<Edge>, c: int)
    requires c > 0 && SaneCounts(es)
    ensures Mass(s, es, c) <= Successes(es) as real / c as real
    ensures 0 <= Successes(es) <= Count(es)
  {
    if es != [] {
      var front, e := es[..|es| - 1], es[|es| - 1];
      MassIsSuccessShare(s, front, c);
      ProbSign(e, c);
      assert e in es;
      SharesAdd(Successes(front), e.success, c);
    }
  }

  lemma ShareAtMostOne(x: int, c: int)
    requires 0 < c && x <= c
    ensures x as real / c as real <= 1.0
  {
  }

  lemma SharesAdd(x: int, y: int, c: int)
    requires c > 0
    ensures (x + y) as real / c as real == x as real / c as real + y as real / c as real
    ensures y >= 0 ==> y as real / c as real >= 0.0
  {
  }

  /** On a graph the recorder wrote, the clamp on `progress` never changes its value. */
  lemma ClampNeverActs(g: Graph, s: string, a: string)
    requires SaneCounts(g.edges) && Count(Group(g, s, a)) > 0
    ensures Clamp(Mass(s, Group(g, s, a), Count(Group(g, s, a)))) == Mass(s, Group(g, s, a), Count(Group(g, s, a)))
  {
    var es := Group(g, s, a);
    var c := Count(es);
    GroupMembers(g, s, a);
    MassSign(s, es, c);
    MassIsSuccessShare(s, es, c);
    ShareAtMostOne(Successes(es), c);
  }
}
