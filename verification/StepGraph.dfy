/**
  The step graph of a workflow (internal/spec/validate.go): its edges, what is
  reachable, its strongly connected components, and the reachability walk of the
  validator.
 */
module StepGraph {
  import opened Wrappers
  import opened Workflows

  /** Successors by node. A node without an entry is a leaf. */
  type Graph = map<string, set<string>>

  predicate Edge(g: Graph, u: string, v: string) {
    u in g && v in g[u]
  }

  /** Every id a step can route to, branches and bodies included. */
  function Targets(step: StepDecl): set<string> {
    (if step.next != "" then {step.next} else {})
    + step.outcomes.Values
    + (set c | c in step.catches :: c.next)
    + match step.kind
      case Parallel(branches) => (set b | b in branches)
      case Foreach(_, body, _, _) => if body != "" then {body} else {}
      case _ => {}
  }

  function StepIds(w: Workflow): set<string> {
    set s | s in w.steps :: s.id
  }

  lemma StepIdsAreSteps(w: Workflow, id: string)
    ensures id in StepIds(w) <==> IsStep(w, id)
  {}

  /** Steps and terminals; terminals are leaves. */
  function WholeGraph(w: Workflow): Graph {
    map id | id in StepIds(w) && IsStep(w, id) :: Targets(StepById(w, id).value)
  }

  /** Steps only. */
  function GraphOfSteps(w: Workflow): (g: Graph)
    ensures g.Keys == StepIds(w) && forall u, v :: Edge(g, u, v) ==> v in g
  {
    assert forall id :: id in StepIds(w) ==> IsStep(w, id) by {
      forall id | id in StepIds(w) ensures IsStep(w, id) { StepIdsAreSteps(w, id); }
    }
    assert forall id :: IsStep(w, id) ==> id in StepIds(w) by {
      forall id | IsStep(w, id) ensures id in StepIds(w) { StepIdsAreSteps(w, id); }
    }
    map id | id in StepIds(w) && IsStep(w, id) :: set t | t in Targets(StepById(w, id).value) && IsStep(w, t)
  }

  // ---- reachability -----------------------------------------------------------------

  ghost predicate Path(g: Graph, p: seq<string>) {
    |p| > 0 && forall i :: 0 <= i < |p| - 1 ==> Edge(g, p[i], p[i + 1])
  }

  ghost predicate PathFrom(g: Graph, p: seq<string>, u: string, v: string) {
    Path(g, p) && p[0] == u && p[|p| - 1] == v
  }

  /** A path of any length, none included, leads from u to v. */
  ghost predicate Reach(g: Graph, u: string, v: string) {
    exists p :: PathFrom(g, p, u, v)
  }

  lemma ReachSelf(g: Graph, u: string)
    ensures Reach(g, u, u)
  {
    assert PathFrom(g, [u], u, u);
  }

  lemma ReachEdge(g: Graph, u: string, v: string)
    requires Edge(g, u, v)
    ensures Reach(g, u, v)
  {
    assert PathFrom(g, [u, v], u, v);
  }

  lemma ReachThrough(g: Graph, u: string, v: string, t: string)
    requires Reach(g, u, v) && Reach(g, v, t)
    ensures Reach(g, u, t)
  {
    var p :| PathFrom(g, p, u, v);
    var q :| PathFrom(g, q, v, t);
    var r := p + q[1..];
    forall i | 0 <= i < |r| - 1
      ensures Edge(g, r[i], r[i + 1])
    {
      if i < |p| - 1 {
        assert r[i] == p[i] && r[i + 1] == p[i + 1];
      } else {
        assert r[i] == q[i - |p| + 1] && r[i + 1] == q[i - |p| + 2];
      }
    }
    assert PathFrom(g, r, u, t);
  }

  /** No edge leaves the set. */
  ghost predicate NoWayOut(g: Graph, s: set<string>) {
    forall u, v :: u in s && Edge(g, u, v) ==> v in s
  }

  lemma {:induction false} StaysInside(g: Graph, s: set<string>, p: seq<string>)
    requires NoWayOut(g, s) && Path(g, p) && p[0] in s
    ensures p[|p| - 1] in s
    decreases |p|
  {
    if |p| > 1 {
      var rest := p[..|p| - 1];
      assert Path(g, rest) by {
        forall i | 0 <= i < |rest| - 1 ensures Edge(g, rest[i], rest[i + 1]) {
          assert Edge(g, p[i], p[i + 1]);
        }
      }
      StaysInside(g, s, rest);
      assert Edge(g, p[|p| - 2], p[|p| - 1]);
    }
  }

  lemma ReachStaysInside(g: Graph, s: set<string>, u: string, v: string)
    requires NoWayOut(g, s) && u in s && Reach(g, u, v)
    ensures v in s
  {
    var p :| PathFrom(g, p, u, v);
    StaysInside(g, s, p);
  }

  // ---- components -----------------------------------------------------------------

  /** A strongly connected component: its nodes reach one another, and nothing
      outside both reaches them and is reached by them. */
  ghost predicate IsComponent(g: Graph, c: set<string>) {
    && c != {} && c <= g.Keys
    && (forall u, v :: u in c && v in c ==> Reach(g, u, v))
    && (forall u, v :: u in c && Reach(g, u, v) && Reach(g, v, u) ==> v in c)
  }

  /** The component of every node of a cycle: more than one node, or a self-loop. */
  ghost predicate IsCyclic(g: Graph, c: set<string>) {
    IsComponent(g, c) && (|c| > 1 || exists u :: u in c && Edge(g, u, u))
  }

  /** A way back to the node that takes at least one edge. */
  ghost predicate OnCycle(g: Graph, u: string) {
    exists v :: Edge(g, u, v) && Reach(g, v, u)
  }

  /** Two components are equal or disjoint. */
  lemma ComponentsAreDisjoint(g: Graph, a: set<string>, b: set<string>, u: string)
    requires IsComponent(g, a) && IsComponent(g, b) && u in a && u in b
    ensures a == b
  {
    forall v
      ensures v in a <==> v in b
    {}
  }

  lemma FirstEdge(g: Graph, u: string, v: string)
    requires Reach(g, u, v) && u != v
    ensures exists t :: Edge(g, u, t) && Reach(g, t, v)
  {
    var p :| PathFrom(g, p, u, v);
    assert Edge(g, p[0], p[1]);
    assert PathFrom(g, p[1..], p[1], v) by {
      forall i | 0 <= i < |p[1..]| - 1 ensures Edge(g, p[1..][i], p[1..][i + 1]) {
        assert Edge(g, p[i + 1], p[i + 2]);
      }
    }
  }

  /** A node lies on a cycle if and only if its component is cyclic. */
  lemma CyclicIffOnCycle(g: Graph, c: set<string>, u: string)
    requires IsComponent(g, c) && u in c
    ensures IsCyclic(g, c) <==> OnCycle(g, u)
  {
    if IsCyclic(g, c) {
      if |c| > 1 {
        var other := OtherMember(c, u);
        FirstEdge(g, u, other);
        var t :| Edge(g, u, t) && Reach(g, t, other);
        ReachThrough(g, t, other, u);
      } else {
        var x :| x in c && Edge(g, x, x);
        OnlyMember(c, u, x);
        ReachSelf(g, u);
      }
    }
    if OnCycle(g, u) {
      var v :| Edge(g, u, v) && Reach(g, v, u);
      ReachEdge(g, u, v);
      assert v in c;
      if v != u {
        assert {u, v} <= c;
        assert |c| > 1 by { OneOrMore(c, u, v); }
      }
    }
  }

  lemma OtherMember(c: set<string>, u: string) returns (other: string)
    requires |c| > 1
    ensures other in c && other != u
  {
    if c - {u} == {} {
      assert c <= {u};
      assert |c| <= |{u}| by { SubsetSize(c, {u}); }
    }
    other :| other in c - {u};
  }

  lemma {:induction false} SubsetSize(a: set<string>, b: set<string>)
    requires a <= b
    ensures |a| <= |b|
  {
    if a != {} {
      var x :| x in a;
      SubsetSize(a - {x}, b - {x});
    }
  }

  lemma OnlyMember(c: set<string>, u: string, v: string)
    requires |c| <= 1 && u in c && v in c
    ensures u == v
  {
    if u != v {
      OneOrMore(c, u, v);
    }
  }

  lemma OneOrMore(c: set<string>, u: string, v: string)
    requires u in c && v in c && u != v
    ensures |c| > 1
  {
    SubsetSize({u, v}, c);
  }

  // ---- the edges of a step, listed -------------------------------------------------------

  /** List every edge of a step, in the order of its parts. */
  method EdgesOf(step: StepDecl) returns (out: seq<string>)
    ensures forall t :: t in out <==> t in Targets(step)
  {
    var first := if step.next != "" then [step.next] else [];
    var named := OutcomeTargets(step.outcomes);
    var caught := CatchTargets(step.catches);
    out := first + named + caught;
    match step.kind
    case Parallel(branches) => out := out + branches;
    case Foreach(_, body, _, _) =>
      if body != "" {
        out := out + [body];
      }
    case _ =>
  }

  /** A map is walked in any order. */
  method OutcomeTargets(outcomes: map<string, string>) returns (out: seq<string>)
    ensures forall t :: t in out <==> t in outcomes.Values
  {
    out := [];
    var left := outcomes.Keys;
    while left != {}
      invariant left <= outcomes.Keys
      invariant forall t :: t in out <==> exists o :: o in outcomes && o !in left && outcomes[o] == t
      decreases |left|
    {
      var o :| o in left;
      out := out + [outcomes[o]];
      left := left - {o};
    }
  }

  method CatchTargets(catches: seq<Catch>) returns (out: seq<string>)
    ensures forall t :: t in out <==> t in set c | c in catches :: c.next
  {
    out := [];
    var i := 0;
    while i < |catches|
      invariant 0 <= i <= |catches|
      invariant forall t :: t in out <==> exists k :: 0 <= k < i && catches[k].next == t
    {
      out := out + [catches[i].next];
      i := i + 1;
    }
  }

  // ---- rule 2: reachable from start ---------------------------------------------------------

  /** Visited nodes lead nowhere but to visited nodes, except where still on the stack. */
  ghost predicate Explored(g: Graph, start: string, visited: set<string>, stack: seq<string>) {
    && start in visited
    && (forall v :: v in visited ==> Reach(g, start, v))
    && (forall v :: v in stack ==> v in visited)
    && (forall u, v :: u in visited && Edge(g, u, v) && u !in stack ==> v in visited)
  }

  /** Rule 2: the declared steps that no path from start reaches, in declared order. */
  method Unreachable(w: Workflow) returns (ids: seq<string>)
    ensures ids == Filter(w.steps, WholeGraph(w), w.start)
  {
    var visited: set<string> := {};
    ghost var g := WholeGraph(w);
    if w.start != "" {
      visited := Walk(w);
    }
    ids := [];
    var i := 0;
    while i < |w.steps|
      invariant 0 <= i <= |w.steps|
      invariant ids == Filter(w.steps[..i], g, w.start)
    {
      assert w.steps[..i + 1][..i] == w.steps[..i];
      if w.steps[i].id !in visited {
        ids := ids + [w.steps[i].id];
      }
      i := i + 1;
    }
    assert w.steps[..i] == w.steps;
  }

  /** The ids of the steps that are not reachable. */
  ghost function Filter(steps: seq<StepDecl>, g: Graph, start: string): seq<string> {
    if |steps| == 0 then []
    else
      var id := steps[|steps| - 1].id;
      Filter(steps[..|steps| - 1], g, start) + if start != "" && Reach(g, start, id) then [] else [id]
  }

  function AllIds(w: Workflow): set<string> {
    {w.start} + set s, t | s in w.steps && t in Targets(s) :: t
  }

  /** The depth-first walk from start. */
  method Walk(w: Workflow) returns (visited: set<string>)
    ensures forall v :: v in visited <==> Reach(WholeGraph(w), w.start, v)
  {
    ghost var g := WholeGraph(w);
    visited := {w.start};
    var stack := [w.start];
    ReachSelf(g, w.start);
    while |stack| > 0
      invariant Explored(g, w.start, visited, stack) && visited <= AllIds(w)
      decreases AllIds(w) - visited, |stack|
    {
      var id := stack[|stack| - 1];
      ghost var popped, before := stack[..|stack| - 1], visited;
      assert stack == popped + [id];
      stack := stack[..|stack| - 1];
      var step := StepById(w, id);
      StepIdsAreSteps(w, id);
      if step.Some? {
        var edges := EdgesOf(step.value);
        visited, stack := PushUnseen(edges, visited, stack);
        forall v | v in visited
          ensures Reach(g, w.start, v)
        {
          if v !in before {
            assert Edge(g, id, v);
            ReachEdge(g, id, v);
            ReachThrough(g, w.start, id, v);
          }
        }
      }
    }
    forall v | Reach(g, w.start, v)
      ensures v in visited
    {
      ReachStaysInside(g, visited, w.start, v);
    }
  }

  /** Mark and push the targets not seen before. */
  method PushUnseen(edges: seq<string>, visited: set<string>, stack: seq<string>)
    returns (marked: set<string>, grown: seq<string>)
    ensures marked == visited + set t | t in edges
    ensures forall t :: t in grown <==> t in stack || (t in edges && t !in visited)
    ensures marked == visited ==> grown == stack
  {
    marked, grown := visited, stack;
    var i := 0;
    while i < |edges|
      invariant 0 <= i <= |edges|
      invariant marked == visited + set t | t in edges[..i]
      invariant forall t :: t in grown <==> t in stack || (t in edges[..i] && t !in visited)
      invariant visited < marked || (marked == visited && grown == stack)
    {
      if edges[i] !in marked {
        marked := marked + {edges[i]};
        grown := grown + [edges[i]];
      }
      i := i + 1;
    }
    assert edges[..i] == edges;
  }
}
