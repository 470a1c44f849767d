/**
  The search for cycles in the step graph (internal/spec/validate.go,
  findCycles): one depth-first pass that numbers nodes, keeps the nodes of
  unfinished components on a stack and pops a component at its root.
 */
module StepCycles {
  import opened Wrappers
  import opened Workflows
  import opened StepGraph

  // ---- the state of the search ------------------------------------------------------

  /** `gray` holds the nodes whose calls have not returned, `closed` the components
      found so far. */
  datatype Env = Env(index: map<string, nat>, stack: seq<string>, gray: set<string>, closed: set<set<string>>)

  function Elems(s: seq<string>): set<string> {
    set x | x in s
  }

  /** The nodes of the components found so far. */
  function ClosedNodes(e: Env): set<string> {
    e.index.Keys - Elems(e.stack)
  }

  /** Stacked nodes are numbered, in the order they were pushed. */
  ghost predicate Numbered(g: Graph, e: Env, counter: nat) {
    && e.index.Keys <= g.Keys
    && (forall x :: x in e.index ==> e.index[x] < counter)
    && (forall x :: x in e.stack ==> x in e.index)
    && (forall x :: x in e.gray ==> x in e.stack)
    && (forall i, j :: 0 <= i < j < |e.stack| ==> e.index[e.stack[i]] < e.index[e.stack[j]])
  }

  /** A finished node has no unvisited successor. */
  ghost predicate Advanced(g: Graph, e: Env) {
    forall u, v :: u in e.index && u !in e.gray && Edge(g, u, v) ==> v in e.index
  }

  /** A node in progress reaches every stacked node above it. */
  ghost predicate Downward(g: Graph, e: Env)
    requires forall x :: x in e.gray || x in e.stack ==> x in e.index
  {
    forall x, y :: x in e.gray && y in e.stack && e.index[x] <= e.index[y] ==> Reach(g, x, y)
  }

  ghost predicate ClimbsTo(g: Graph, e: Env, y: string, x: string)
    requires y in e.index
  {
    x in e.gray && x in e.index && e.index[x] <= e.index[y] && Reach(g, y, x)
  }

  /** A stacked node reaches some node in progress below it. */
  ghost predicate Upward(g: Graph, e: Env)
    requires forall x :: x in e.stack ==> x in e.index
  {
    forall y :: y in e.stack ==> exists x :: ClimbsTo(g, e, y, x)
  }

  /** What has been closed is a union of components that no edge leaves. */
  ghost predicate Closed(g: Graph, e: Env) {
    && NoWayOut(g, ClosedNodes(e))
    && (forall c :: c in e.closed ==> IsComponent(g, c) && c <= ClosedNodes(e))
    && (forall x :: x in ClosedNodes(e) ==> exists c :: c in e.closed && x in c)
  }

  ghost predicate Sane(g: Graph, e: Env, counter: nat) {
    Numbered(g, e, counter) && Advanced(g, e) && Downward(g, e) && Upward(g, e) && Closed(g, e)
  }

  /** What a call may do to the state: number and close more nodes, push above the
      stack it found. */
  ghost predicate Extends(e: Env, f: Env, counter: nat) {
    && e.stack <= f.stack && e.gray == f.gray && e.closed <= f.closed
    && (forall x :: x in e.index ==> x in f.index && f.index[x] == e.index[x])
    && (forall x :: x in f.index && x !in e.index ==> f.index[x] >= counter)
    && (forall x :: x in f.stack[|e.stack|..] ==> x !in e.index)
  }

  /** n is v's number, or that of a node v reaches in the stack the call found. */
  ghost predicate Low(g: Graph, base: seq<string>, e: Env, v: string, n: nat) {
    v in e.index && n <= e.index[v]
    && (n < e.index[v] ==> exists y :: y in base && y in e.index && e.index[y] == n && Reach(g, v, y))
  }

  /** Edges from these nodes back into the base lead no lower than n. */
  ghost predicate NoLower(g: Graph, base: seq<string>, e: Env, from: seq<string>, n: nat) {
    forall u, y :: u in from && y in base && y in e.index && Edge(g, u, y) ==> n <= e.index[y]
  }

  /** In the middle of v's edges: those in `done` have been followed, every node in
      progress reaches v, and none is stacked above it. */
  ghost predicate Scanning(g: Graph, base: seq<string>, e: Env, v: string, n: nat, done: set<string>) {
    && v in e.gray && |base| < |e.stack| && base == e.stack[..|base|] && e.stack[|base|] == v
    && (forall x :: x in e.gray ==> Reach(g, x, v))
    && (forall u :: u in e.stack[|base| + 1..] ==> u !in e.gray)
    && Low(g, base, e, v, n)
    && NoLower(g, base, e, e.stack[|base| + 1..], n)
    && (forall t :: t in done && Edge(g, v, t) ==> t in e.index && (t in base ==> n <= e.index[t]))
  }

  function Min(a: nat, b: nat): nat {
    if a < b then a else b
  }

  // ---- steps of the search ------------------------------------------------------------

  function Pushed(e: Env, v: string, counter: nat): Env {
    Env(e.index[v := counter], e.stack + [v], e.gray + {v}, e.closed)
  }

  lemma PushIsSane(g: Graph, e: Env, v: string, counter: nat)
    requires Sane(g, e, counter) && v in g && v !in e.index
    requires forall x :: x in e.gray ==> Reach(g, x, v)
    ensures Sane(g, Pushed(e, v, counter), counter + 1)
    ensures Scanning(g, e.stack, Pushed(e, v, counter), v, counter, {})
  {
    hide Reach, IsComponent, Downward, Upward;
    var f := Pushed(e, v, counter);
    assert ClosedNodes(f) == ClosedNodes(e);
    PushReaches(g, e, v, counter);
    ReachSelf(g, v);
    assert f.stack[..|e.stack|] == e.stack && f.stack[|e.stack| + 1..] == [];
  }

  lemma PushReaches(g: Graph, e: Env, v: string, counter: nat)
    requires Sane(g, e, counter) && v in g && v !in e.index
    requires forall x :: x in e.gray ==> Reach(g, x, v)
    ensures Numbered(g, Pushed(e, v, counter), counter + 1)
    ensures Downward(g, Pushed(e, v, counter)) && Upward(g, Pushed(e, v, counter))
  {
    hide Reach, IsComponent, Closed, Advanced;
    var f := Pushed(e, v, counter);
    ReachSelf(g, v);
    assert forall x :: x in f.stack <==> x in e.stack || x == v;
    assert Numbered(g, f, counter + 1) by { hide Upward, Downward; }
    assert Downward(g, f) by { hide Upward; }
    PushUpward(g, e, v, counter);
  }

  lemma PushUpward(g: Graph, e: Env, v: string, counter: nat)
    requires Numbered(g, e, counter) && Upward(g, e) && v !in e.index && Reach(g, v, v)
    requires Numbered(g, Pushed(e, v, counter), counter + 1)
    ensures Upward(g, Pushed(e, v, counter))
  {
    hide Reach, ClimbsTo;
    var f := Pushed(e, v, counter);
    forall y | y in f.stack
      ensures exists x :: ClimbsTo(g, f, y, x)
    {
      if y in e.stack {
        var x :| ClimbsTo(g, e, y, x);
        PushClimbs(g, e, v, counter, y, x);
      } else {
        assert ClimbsTo(g, f, v, v) by { NewestClimbs(g, e, v, counter); }
      }
    }
  }

  lemma PushClimbs(g: Graph, e: Env, v: string, counter: nat, y: string, x: string)
    requires y in e.index && ClimbsTo(g, e, y, x) && v !in e.index
    ensures ClimbsTo(g, Pushed(e, v, counter), y, x)
  {
    hide Reach;
  }

  lemma NewestClimbs(g: Graph, e: Env, v: string, counter: nat)
    requires Reach(g, v, v)
    ensures ClimbsTo(g, Pushed(e, v, counter), v, v)
  {
    hide Reach;
  }

  /** The base of the stack holds exactly the stacked nodes numbered below v. */
  lemma BelowIsBase(g: Graph, base: seq<string>, e: Env, v: string, y: string, counter: nat)
    requires Numbered(g, e, counter) && y in e.stack && v in e.index
    requires |base| < |e.stack| && base == e.stack[..|base|] && e.stack[|base|] == v
    ensures y in base <==> e.index[y] < e.index[v]
  {
    var i :| 0 <= i < |e.stack| && e.stack[i] == y;
    if y in base {
      var j :| 0 <= j < |base| && base[j] == y;
      assert e.stack[j] == y;
    }
    if i < |base| {
      assert base[i] == y;
    }
  }

  lemma SeenOnStack(g: Graph, base: seq<string>, e: Env, v: string, n: nat, done: set<string>, t: string, counter: nat)
    requires Numbered(g, e, counter) && Scanning(g, base, e, v, n, done) && Edge(g, v, t) && t in e.stack
    ensures Scanning(g, base, e, v, Min(n, e.index[t]), done + {t})
  {
    hide Reach;
    if e.index[t] < n {
      BelowIsBase(g, base, e, v, t, counter);
      ReachEdge(g, v, t);
    }
  }

  lemma SeenClosed(g: Graph, base: seq<string>, e: Env, v: string, n: nat, done: set<string>, t: string)
    requires Scanning(g, base, e, v, n, done) && t in e.index && t !in e.stack
    ensures Scanning(g, base, e, v, n, done + {t})
  {
    hide Reach;
    assert forall x :: x in base ==> x in e.stack;
  }

  /** An edge to something that is no node has nothing to follow. */
  lemma SeenLeaf(g: Graph, base: seq<string>, e: Env, v: string, n: nat, done: set<string>, t: string)
    requires Scanning(g, base, e, v, n, done) && !Edge(g, v, t)
    ensures Scanning(g, base, e, v, n, done + {t})
  {
    hide Reach;
  }

  lemma Descended(g: Graph, base: seq<string>, e: Env, f: Env, v: string, n: nat, done: set<string>, t: string,
                  m: nat, counter: nat)
    requires Numbered(g, e, counter) && Scanning(g, base, e, v, n, done) && Edge(g, v, t)
    requires Extends(e, f, counter) && t in f.index && t !in e.index
    requires Low(g, e.stack, f, t, m) && NoLower(g, e.stack, f, f.stack[|e.stack|..], m)
    ensures Scanning(g, base, f, v, Min(n, m), done + {t})
  {
    hide Reach;
    assert forall x :: x in base ==> x in e.stack;
    assert f.stack[..|base|] == base && f.stack[|base|] == v;
    assert f.stack[|base| + 1..] == e.stack[|base| + 1..] + f.stack[|e.stack|..];
    assert Low(g, base, f, v, Min(n, m)) by {
      if m < n {
        DescendedLow(g, base, e, f, v, t, m, counter);
      }
    }
    hide Low;
  }

  lemma DescendedLow(g: Graph, base: seq<string>, e: Env, f: Env, v: string, t: string, m: nat, counter: nat)
    requires Numbered(g, e, counter) && Edge(g, v, t) && v in e.index && m < e.index[v]
    requires |base| < |e.stack| && base == e.stack[..|base|] && e.stack[|base|] == v
    requires Extends(e, f, counter) && t in f.index && t !in e.index && Low(g, e.stack, f, t, m)
    ensures Low(g, base, f, v, m)
  {
    hide Reach;
    var y :| y in e.stack && y in f.index && f.index[y] == m && Reach(g, t, y);
    BelowIsBase(g, base, e, v, y, counter);
    ReachEdge(g, v, t);
    ReachThrough(g, v, t, y);
  }

  /** What a finished call leaves of v's node when its component goes on below. */
  lemma StayIsSane(g: Graph, base: seq<string>, e: Env, v: string, n: nat, counter: nat)
    requires Sane(g, e, counter) && v in e.index && Scanning(g, base, e, v, n, e.index.Keys) && n < e.index[v]
    requires forall t :: Edge(g, v, t) ==> t in e.index
    ensures Sane(g, e.(gray := e.gray - {v}), counter)
  {
    hide Reach, IsComponent, Upward, Downward, Scanning;
    var f := e.(gray := e.gray - {v});
    assert ClosedNodes(f) == ClosedNodes(e);
    assert Downward(g, f) by { StayDownward(g, e, v, counter); }
    var root := StayRoot(g, base, e, v, n, counter);
    StayUpward(g, e, v, root, counter);
  }

  lemma StayDownward(g: Graph, e: Env, v: string, counter: nat)
    requires Numbered(g, e, counter) && Downward(g, e)
    ensures Downward(g, e.(gray := e.gray - {v}))
  {
    hide Reach;
  }

  /** A node in progress below v that v reaches. */
  lemma StayRoot(g: Graph, base: seq<string>, e: Env, v: string, n: nat, counter: nat) returns (root: string)
    requires Numbered(g, e, counter) && Upward(g, e)
    requires v in e.index && Scanning(g, base, e, v, n, e.index.Keys) && n < e.index[v]
    ensures root in e.gray && root != v && root in e.index && e.index[root] < e.index[v] && Reach(g, v, root)
  {
    hide Reach, NoLower;
    var low :| low in base && low in e.index && e.index[low] == n && Reach(g, v, low);
    assert low in e.stack;
    root :| ClimbsTo(g, e, low, root);
    ReachThrough(g, v, low, root);
  }

  lemma StayUpward(g: Graph, e: Env, v: string, root: string, counter: nat)
    requires Numbered(g, e, counter) && Upward(g, e) && v in e.index
    requires root in e.gray && root != v && root in e.index && e.index[root] < e.index[v] && Reach(g, v, root)
    ensures Upward(g, e.(gray := e.gray - {v}))
  {
    hide Reach, ClimbsTo;
    var f := e.(gray := e.gray - {v});
    forall y | y in f.stack
      ensures exists x :: ClimbsTo(g, f, y, x)
    {
      var x :| ClimbsTo(g, e, y, x);
      StayClimbs(g, e, v, root, y, x);
    }
  }

  lemma StayClimbs(g: Graph, e: Env, v: string, root: string, y: string, x: string)
    requires y in e.index && ClimbsTo(g, e, y, x) && v in e.index
    requires root in e.gray && root != v && root in e.index && e.index[root] < e.index[v] && Reach(g, v, root)
    ensures exists z :: ClimbsTo(g, e.(gray := e.gray - {v}), y, z)
  {
    hide Reach;
    var f := e.(gray := e.gray - {v});
    if x == v {
      ReachThrough(g, y, v, root);
      assert ClimbsTo(g, f, y, root);
    } else {
      assert ClimbsTo(g, f, y, x);
    }
  }

  // ---- popping a component --------------------------------------------------------------

  function Popped(e: Env, base: seq<string>, v: string): Env
    requires |base| <= |e.stack|
  {
    Env(e.index, base, e.gray - {v}, e.closed + {Elems(e.stack[|base|..])})
  }

  /** All of v's edges have been followed, none leads below v, and nothing above v
      is in progress. */
  ghost predicate AtRoot(g: Graph, base: seq<string>, e: Env, v: string, counter: nat) {
    && Numbered(g, e, counter) && v in e.gray && |base| < |e.stack| && base == e.stack[..|base|] && e.stack[|base|] == v
    && Scanning(g, base, e, v, e.index[v], e.index.Keys)
    && (forall t :: Edge(g, v, t) ==> t in e.index)
  }

  /** The stack falls into the base and the nodes from v up. */
  lemma StackParts(g: Graph, base: seq<string>, e: Env, counter: nat)
    requires Numbered(g, e, counter) && |base| < |e.stack| && base == e.stack[..|base|]
    ensures forall x :: x in e.stack <==> x in base || x in e.stack[|base|..]
    ensures forall x :: x in base ==> x !in e.stack[|base|..]
    ensures forall x :: x in e.stack[|base|..] <==> x == e.stack[|base|] || x in e.stack[|base| + 1..]
  {
    assert e.stack == base + e.stack[|base|..];
    assert e.stack[|base|..] == [e.stack[|base|]] + e.stack[|base| + 1..];
  }

  lemma RootFacts(g: Graph, base: seq<string>, e: Env, v: string, counter: nat)
    requires AtRoot(g, base, e, v, counter)
    ensures forall x :: x in e.gray ==> Reach(g, x, v)
    ensures forall u :: u in e.stack[|base| + 1..] ==> u !in e.gray
  {
    hide Reach;
  }

  /** The nodes from v up reach v and are reached from it. */
  lemma AboveIsConnected(g: Graph, base: seq<string>, e: Env, v: string, counter: nat, u: string)
    requires AtRoot(g, base, e, v, counter) && Downward(g, e) && Upward(g, e) && u in e.stack[|base|..]
    ensures Reach(g, v, u) && Reach(g, u, v)
  {
    hide Reach, Scanning;
    RootFacts(g, base, e, v, counter);
    StackParts(g, base, e, counter);
    BelowIsBase(g, base, e, v, u, counter);
    assert Reach(g, v, u) by { hide Upward; }
    var x :| ClimbsTo(g, e, u, x);
    ReachThrough(g, u, x, v);
  }

  /** No edge leaves the popped nodes and what was closed before. */
  lemma AboveIsClosed(g: Graph, base: seq<string>, e: Env, v: string, counter: nat)
    requires AtRoot(g, base, e, v, counter) && Advanced(g, e) && NoWayOut(g, ClosedNodes(e))
    ensures NoWayOut(g, ClosedNodes(e) + Elems(e.stack[|base|..]))
  {
    hide Reach;
    var all := ClosedNodes(e) + Elems(e.stack[|base|..]);
    StackParts(g, base, e, counter);
    forall u, t | u in all && Edge(g, u, t)
      ensures t in all
    {
      if u !in ClosedNodes(e) {
        assert t in e.index;
        if t in base {
          BelowIsBase(g, base, e, v, t, counter);
          assert false;
        }
      }
    }
  }

  lemma AboveIsComponent(g: Graph, base: seq<string>, e: Env, v: string, counter: nat)
    requires AtRoot(g, base, e, v, counter) && Sane(g, e, counter)
    ensures IsComponent(g, Elems(e.stack[|base|..]))
  {
    hide Reach, Downward, Upward, Advanced, Scanning;
    var c := Elems(e.stack[|base|..]);
    StackParts(g, base, e, counter);
    forall u, t | u in c && t in c
      ensures Reach(g, u, t)
    {
      AboveIsConnected(g, base, e, v, counter, u);
      AboveIsConnected(g, base, e, v, counter, t);
      ReachThrough(g, u, v, t);
    }
    AboveIsClosed(g, base, e, v, counter);
    forall u, t | u in c && Reach(g, u, t) && Reach(g, t, u)
      ensures t in c
    {
      ReachStaysInside(g, ClosedNodes(e) + c, u, t);
      if t in ClosedNodes(e) {
        ReachStaysInside(g, ClosedNodes(e), t, u);
      }
    }
    assert v in c;
  }

  lemma PopIsSane(g: Graph, base: seq<string>, e: Env, v: string, counter: nat)
    requires AtRoot(g, base, e, v, counter) && Sane(g, e, counter)
    ensures Sane(g, Popped(e, base, v), counter)
    ensures Elems(e.stack[|base|..]) !in e.closed && IsComponent(g, Elems(e.stack[|base|..]))
  {
    hide Reach, IsComponent, Upward, Downward;
    AboveIsComponent(g, base, e, v, counter);
    AboveIsClosed(g, base, e, v, counter);
    StackParts(g, base, e, counter);
    PopUpward(g, base, e, v, counter);
    var f, c := Popped(e, base, v), Elems(e.stack[|base|..]);
    assert v in c;
    assert Numbered(g, f, counter);
    assert Advanced(g, f);
  }

  lemma PopUpward(g: Graph, base: seq<string>, e: Env, v: string, counter: nat)
    requires AtRoot(g, base, e, v, counter) && Upward(g, e) && Downward(g, e)
    ensures Numbered(g, Popped(e, base, v), counter)
    ensures Upward(g, Popped(e, base, v)) && Downward(g, Popped(e, base, v))
  {
    hide Reach, Scanning, ClimbsTo;
    var f := Popped(e, base, v);
    RootFacts(g, base, e, v, counter);
    StackParts(g, base, e, counter);
    assert Downward(g, f) by { hide Upward; }
    forall y | y in f.stack
      ensures exists x :: ClimbsTo(g, f, y, x)
    {
      hide Downward;
      BelowIsBase(g, base, e, v, y, counter);
      var x :| ClimbsTo(g, e, y, x);
      PopClimbs(g, base, e, v, y, x);
    }
  }

  lemma PopClimbs(g: Graph, base: seq<string>, e: Env, v: string, y: string, x: string)
    requires y in e.index && ClimbsTo(g, e, y, x) && v in e.index && e.index[y] < e.index[v] && |base| <= |e.stack|
    ensures ClimbsTo(g, Popped(e, base, v), y, x)
  {
    hide Reach;
  }

  // ---- what a call comes to -------------------------------------------------------------

  /** The contract of one call for v: it numbers v, leaves v's lowest link in n, and
      keeps above the stack it found only what leads no lower than n. */
  ghost predicate Returned(g: Graph, e: Env, f: Env, v: string, n: nat, counter: nat) {
    Extends(e, f, counter) && v in f.index && Low(g, e.stack, f, v, n)
    && NoLower(g, e.stack, f, f.stack[|e.stack|..], n)
  }

  lemma StayReturns(g: Graph, e: Env, f: Env, v: string, n: nat, counter: nat)
    requires v !in e.index && v !in e.gray && Extends(Pushed(e, v, counter), f, counter + 1)
    requires Scanning(g, e.stack, f, v, n, f.index.Keys) && (forall t :: Edge(g, v, t) ==> t in f.index)
    requires v in f.index && f.index[v] >= counter
    ensures Returned(g, e, f.(gray := f.gray - {v}), v, n, counter)
  {
    hide Reach;
    assert f.stack[|e.stack|..] == [v] + f.stack[|e.stack| + 1..];
    assert Pushed(e, v, counter).stack == f.stack[..|e.stack| + 1];
    assert f.stack[|Pushed(e, v, counter).stack|..] == f.stack[|e.stack| + 1..];
  }

  lemma PopReturns(g: Graph, e: Env, f: Env, v: string, counter: nat)
    requires v !in e.index && v !in e.gray && Extends(Pushed(e, v, counter), f, counter + 1)
    requires v in f.index && f.index[v] >= counter && e.stack <= f.stack
    ensures Returned(g, e, Popped(f, e.stack, v), v, f.index[v], counter)
  {
    hide Reach;
  }

  lemma AllFollowed(g: Graph, base: seq<string>, e: Env, v: string, n: nat, done: set<string>)
    requires Scanning(g, base, e, v, n, done) && (forall t :: Edge(g, v, t) ==> t in done)
    ensures Scanning(g, base, e, v, n, e.index.Keys) && (forall t :: Edge(g, v, t) ==> t in e.index)
  {
    hide Reach;
  }

  // ---- what is recorded ---------------------------------------------------------------------

  predicate Distinct(s: seq<string>) {
    forall i, j :: 0 <= i < j < |s| ==> s[i] != s[j]
  }

  /** The list holds the cyclic ones of the closed components, each once. */
  ghost predicate Recorded(g: Graph, sccs: seq<seq<string>>, closed: set<set<string>>) {
    && (forall k :: 0 <= k < |sccs| ==>
          Distinct(sccs[k]) && Elems(sccs[k]) in closed && IsCyclic(g, Elems(sccs[k])))
    && (forall j, k :: 0 <= j < k < |sccs| ==> Elems(sccs[j]) != Elems(sccs[k]))
    && (forall c :: c in closed && IsCyclic(g, c) ==> exists k :: 0 <= k < |sccs| && Elems(sccs[k]) == c)
  }

  lemma {:induction false} DistinctSize(s: seq<string>)
    requires Distinct(s)
    ensures |Elems(s)| == |s|
  {
    if |s| > 0 {
      var front := s[..|s| - 1];
      DistinctSize(front);
      assert s == front + [s[|s| - 1]];
      assert Elems(s) == Elems(front) + {s[|s| - 1]};
    }
  }

  lemma RecordOne(g: Graph, sccs: seq<seq<string>>, closed: set<set<string>>, scc: seq<string>, listed: bool)
    requires Recorded(g, sccs, closed) && Distinct(scc) && Elems(scc) !in closed
    requires listed <==> IsCyclic(g, Elems(scc))
    ensures Recorded(g, if listed then sccs + [scc] else sccs, closed + {Elems(scc)})
  {
    hide IsCyclic, Elems, Distinct;
    var after := if listed then sccs + [scc] else sccs;
    forall c | c in closed + {Elems(scc)} && IsCyclic(g, c)
      ensures exists k :: 0 <= k < |after| && Elems(after[k]) == c
    {
      if c in closed {
        var k :| 0 <= k < |sccs| && Elems(sccs[k]) == c;
        assert Elems(after[k]) == c;
      } else {
        assert Elems(after[|sccs|]) == c;
      }
    }
  }

  lemma SmallIsCyclic(g: Graph, scc: seq<string>)
    requires Distinct(scc) && IsComponent(g, Elems(scc)) && |scc| > 0
    ensures IsCyclic(g, Elems(scc)) <==> |scc| > 1 || Edge(g, scc[0], scc[0])
  {
    hide IsComponent;
    DistinctSize(scc);
    assert scc[0] in Elems(scc);
    if |scc| == 1 {
      assert Elems(scc) == {scc[0]};
    }
  }

  // ---- facts about the graph and the whole search -------------------------------------------

  lemma StepEdges(w: Workflow, v: string)
    ensures v in GraphOfSteps(w) <==> IsStep(w, v)
    ensures IsStep(w, v) ==>
              forall t :: Edge(GraphOfSteps(w), v, t) <==> t in Targets(StepById(w, v).value) && IsStep(w, t)
  {
    StepIdsAreSteps(w, v);
  }

  lemma SoleMember(g: Graph, scc: seq<string>)
    requires |scc| > 0 && IsComponent(g, Elems(scc))
    ensures scc[0] in g
  {
    assert scc[0] in Elems(scc);
  }

  lemma NumberedIsDistinct(g: Graph, e: Env, counter: nat)
    requires Numbered(g, e, counter)
    ensures Distinct(e.stack)
  {}

  lemma InProgressReach(g: Graph, base: seq<string>, e: Env, v: string, n: nat, done: set<string>, t: string)
    requires Scanning(g, base, e, v, n, done) && Edge(g, v, t)
    ensures forall x :: x in e.gray ==> Reach(g, x, t)
  {
    hide Reach;
    ReachEdge(g, v, t);
    forall x | x in e.gray
      ensures Reach(g, x, t)
    {
      ReachThrough(g, x, v, t);
    }
  }

  lemma ExtendsThrough(a: Env, b: Env, c: Env, first: nat, second: nat)
    requires Extends(a, b, first) && Extends(b, c, second) && first <= second
    ensures Extends(a, c, first)
  {
    assert a.stack <= c.stack;
    assert c.stack[|a.stack|..] == b.stack[|a.stack|..] + c.stack[|b.stack|..];
  }

  lemma ExtendsKeeps(e: Env, f: Env, counter: nat)
    requires Extends(e, f, counter)
    ensures f.gray == e.gray && e.stack <= f.stack && forall x :: x in e.index ==> x in f.index
  {}

  lemma ExtendsSelf(e: Env, counter: nat)
    ensures Extends(e, e, counter)
  {}

  lemma UnvisitedIsNotGray(g: Graph, e: Env, counter: nat, v: string)
    requires Sane(g, e, counter) && v !in e.index
    ensures v !in e.gray
  {
    hide Advanced, Downward, Upward, Closed;
  }

  lemma DistinctAround(s: seq<string>, n: nat)
    requires Distinct(s) && n < |s|
    ensures s[n] !in s[..n] && s[n] !in s[n + 1..] && s[n..] == [s[n]] + s[n + 1..]
  {}

  lemma ReturnedKeeps(g: Graph, e: Env, f: Env, v: string, n: nat, counter: nat)
    requires Returned(g, e, f, v, n, counter)
    ensures f.gray == e.gray && v in f.index && forall x :: x in e.index ==> x in f.index
  {
    hide Reach;
  }

  /** With nothing in progress the stack is empty, so every visited node is closed. */
  lemma SearchIsComplete(w: Workflow, e: Env, counter: nat)
    requires Sane(GraphOfSteps(w), e, counter) && e.gray == {}
    requires forall k :: 0 <= k < |w.steps| ==> w.steps[k].id in e.index
    ensures ClosedNodes(e) == GraphOfSteps(w).Keys
  {
    hide Reach, Closed, Downward, Advanced;
    var g := GraphOfSteps(w);
    forall id | id in g
      ensures id in e.index
    {
      var k :| 0 <= k < |w.steps| && w.steps[k].id == id;
    }
  }

  lemma FoundAll(g: Graph, e: Env, counter: nat, sccs: seq<seq<string>>)
    requires Sane(g, e, counter) && ClosedNodes(e) == g.Keys && Recorded(g, sccs, e.closed)
    ensures forall c :: IsCyclic(g, c) ==> exists k :: 0 <= k < |sccs| && Elems(sccs[k]) == c
    ensures forall j, k :: 0 <= j < k < |sccs| ==> Elems(sccs[j]) !! Elems(sccs[k])
    ensures forall u :: OnCycle(g, u) <==> exists k :: 0 <= k < |sccs| && u in Elems(sccs[k])
    ensures forall k :: 0 <= k < |sccs| ==> Distinct(sccs[k]) && IsCyclic(g, Elems(sccs[k]))
  {
    hide Reach, Downward, Upward, Advanced, Numbered, OnCycle, IsComponent, Elems;
    forall c | IsCyclic(g, c)
      ensures exists k :: 0 <= k < |sccs| && Elems(sccs[k]) == c
    {
      ComponentIsClosed(g, e, c);
    }
    forall j, k | 0 <= j < k < |sccs|
      ensures Elems(sccs[j]) !! Elems(sccs[k])
    {
      forall u | u in Elems(sccs[j])
        ensures u !in Elems(sccs[k])
      {
        if u in Elems(sccs[k]) {
          ComponentsAreDisjoint(g, Elems(sccs[j]), Elems(sccs[k]), u);
          assert false;
        }
      }
    }
    forall u
      ensures OnCycle(g, u) <==> exists k :: 0 <= k < |sccs| && u in Elems(sccs[k])
    {
      if OnCycle(g, u) {
        OnCycleIsNode(g, u);
        var c :| c in e.closed && u in c;
        CyclicIffOnCycle(g, c, u);
      }
      if k :| 0 <= k < |sccs| && u in Elems(sccs[k]) {
        CyclicIffOnCycle(g, Elems(sccs[k]), u);
      }
    }
  }

  lemma OnCycleIsNode(g: Graph, u: string)
    requires OnCycle(g, u)
    ensures u in g
  {}

  lemma ComponentIsClosed(g: Graph, e: Env, c: set<string>)
    requires Closed(g, e) && ClosedNodes(e) == g.Keys && IsComponent(g, c)
    ensures c in e.closed
  {
    hide Reach;
    var u :| u in c;
    var d :| d in e.closed && u in d;
    ComponentsAreDisjoint(g, c, d, u);
  }

  // ---- the search ---------------------------------------------------------------------------

  class CycleFinder {
    const w: Workflow
    var index: map<string, nat>
    var lowlink: map<string, nat>
    var onStack: map<string, bool>
    var stack: seq<string>
    var counter: nat
    var sccs: seq<seq<string>>
    ghost var gray: set<string>
    ghost var closed: set<set<string>>

    ghost function G(): Graph {
      GraphOfSteps(w)
    }

    ghost function Now(): Env
      reads this
    {
      Env(index, stack, gray, closed)
    }

    ghost predicate Valid()
      reads this
    {
      && Sane(G(), Now(), counter)
      && (forall x :: x in index ==> x in lowlink)
      && (forall x :: Lookup(onStack, x, false) <==> x in stack)
      && Recorded(G(), sccs, closed)
    }

    constructor (w: Workflow)
      ensures Valid() && this.w == w && index == map[] && gray == {} && stack == []
    {
      this.w := w;
      index, lowlink, onStack, stack, counter, sccs := map[], map[], map[], [], 0, [];
      gray, closed := {}, {};
    }

    /** Follow every path from an unvisited step, and record the cyclic components
        finished on the way. */
    method StrongConnect(v: string)
      requires Valid() && v in G() && v !in index
      requires forall x :: x in gray ==> Reach(G(), x, v)
      modifies this
      ensures Valid() && v in lowlink && Returned(G(), old(Now()), Now(), v, lowlink[v], old(counter))
      ensures forall x :: x in old(index) ==> x in lowlink && lowlink[x] == old(lowlink)[x]
      ensures counter >= old(counter)
      decreases G().Keys - index.Keys, 0
    {
      hide Sane, Reach, Recorded, Scanning, Returned, Extends, GraphOfSteps;
      ghost var before, first := Now(), counter;
      StepEdges(w, v);
      UnvisitedIsNotGray(G(), before, first, v);
      Enter(v);
      ghost var pushed := Now();
      var edges := EdgesOf(StepById(w, v).value);
      FollowEdges(v, edges, before.stack);
      AllFollowed(G(), before.stack, Now(), v, lowlink[v], Elems(edges));
      ExtendsKeeps(pushed, Now(), first + 1);
      Finish(v, before, pushed, first);
    }

    /** Follow the edges of a node in progress, in order. */
    method FollowEdges(v: string, edges: seq<string>, ghost base: seq<string>)
      requires Valid() && v in index && Scanning(G(), base, Now(), v, lowlink[v], {})
      requires IsStep(w, v) && forall t :: t in edges ==> t in Targets(StepById(w, v).value)
      modifies this
      ensures Valid() && v in index && Scanning(G(), base, Now(), v, lowlink[v], Elems(edges))
      ensures Extends(old(Now()), Now(), old(counter)) && counter >= old(counter)
      ensures forall x :: x in old(index) && x != v ==> x in lowlink && lowlink[x] == old(lowlink)[x]
      decreases G().Keys - index.Keys, 2
    {
      hide Sane, Reach, Recorded, Scanning, Extends, GraphOfSteps;
      ghost var start, first := Now(), counter;
      ExtendsSelf(start, first);
      assert Elems(edges[..0]) == {};
      var i := 0;
      while i < |edges|
        invariant 0 <= i <= |edges|
        invariant Valid() && v in index && Scanning(G(), base, Now(), v, lowlink[v], Elems(edges[..i]))
        invariant Extends(start, Now(), first) && counter >= first
        invariant forall x :: x in start.index ==> x in index
        invariant forall x :: x in start.index && x != v ==> lowlink[x] == old(lowlink)[x]
      {
        ghost var now, at := Now(), counter;
        VisitEdge(v, edges[i], base, Elems(edges[..i]));
        ExtendsKeeps(now, Now(), at);
        ExtendsThrough(start, now, Now(), first, at);
        assert Elems(edges[..i + 1]) == Elems(edges[..i]) + {edges[i]};
        i := i + 1;
      }
      assert edges[..i] == edges;
    }

    /** Number a node and push it. */
    method Enter(v: string)
      requires Valid() && v in G() && v !in index
      requires forall x :: x in gray ==> Reach(G(), x, v)
      modifies this
      ensures Valid() && Now() == Pushed(old(Now()), v, old(counter)) && counter == old(counter) + 1
      ensures lowlink == old(lowlink)[v := old(counter)]
      ensures Scanning(G(), old(stack), Now(), v, lowlink[v], {})
    {
      hide Sane, Reach, Recorded, Scanning, GraphOfSteps;
      PushIsSane(G(), Now(), v, counter);
      index := index[v := counter];
      lowlink := lowlink[v := counter];
      counter := counter + 1;
      stack := stack + [v];
      onStack := onStack[v := true];
      gray := gray + {v};
    }

    /** Follow one edge of a node in progress. */
    method VisitEdge(v: string, t: string, ghost base: seq<string>, ghost done: set<string>)
      requires Valid() && v in index && Scanning(G(), base, Now(), v, lowlink[v], done)
      requires IsStep(w, v) && t in Targets(StepById(w, v).value)
      modifies this
      ensures Valid() && v in index && Scanning(G(), base, Now(), v, lowlink[v], done + {t})
      ensures Extends(old(Now()), Now(), old(counter)) && counter >= old(counter)
      ensures forall x :: x in old(index) && x != v ==> x in lowlink && lowlink[x] == old(lowlink)[x]
      decreases G().Keys - index.Keys, 1
    {
      hide Reach, Recorded, GraphOfSteps, Low, NoLower, Advanced, Downward, Upward, Closed, Scanning;
      StepEdges(w, v);
      ghost var before, first, low := Now(), counter, lowlink[v];
      if StepById(w, t).None? {
        SeenLeaf(G(), base, before, v, low, done, t);
        return;
      }
      if t !in index {
        InProgressReach(G(), base, before, v, low, done, t);
        StrongConnect(t);
        Descended(G(), base, before, Now(), v, low, done, t, lowlink[t], first);
        if lowlink[t] < lowlink[v] {
          lowlink := lowlink[v := lowlink[t]];
        }
      } else if Lookup(onStack, t, false) {
        SeenOnStack(G(), base, before, v, low, done, t, counter);
        if index[t] < lowlink[v] {
          lowlink := lowlink[v := index[t]];
        }
      } else {
        SeenClosed(G(), base, before, v, low, done, t);
      }
    }

    /** All edges of v followed: pop and record its component if v is its root. */
    method Finish(v: string, ghost before: Env, ghost pushed: Env, ghost first: nat)
      requires v in index && v in lowlink && Scanning(G(), before.stack, Now(), v, lowlink[v], index.Keys) && Valid()
      requires forall t :: Edge(G(), v, t) ==> t in index
      requires pushed == Pushed(before, v, first) && Extends(pushed, Now(), first + 1)
      requires v !in before.index && v !in before.gray
      modifies this
      ensures lowlink == old(lowlink) && counter == old(counter)
      ensures v in lowlink && Returned(G(), before, Now(), v, lowlink[v], first) && Valid()
    {
      hide Reach, Recorded, GraphOfSteps, Advanced, Downward, Upward, Closed, Returned, IsComponent;
      ghost var now := Now();
      if lowlink[v] == index[v] {
        assert AtRoot(G(), before.stack, now, v, counter);
        NumberedIsDistinct(G(), now, counter);
        PopIsSane(G(), before.stack, now, v, counter);
        PopReturns(G(), before, now, v, first);
        var scc := PopComponent(v, before.stack);
        gray := gray - {v};
        Record(scc);
        assert Now() == Popped(now, before.stack, v);
      } else {
        StayIsSane(G(), before.stack, now, v, lowlink[v], counter);
        StayReturns(G(), before, now, v, lowlink[v], first);
        gray := gray - {v};
      }
    }

    /** Pop down to and including v. */
    method PopComponent(v: string, ghost base: seq<string>) returns (scc: seq<string>)
      requires |base| < |stack| && base == stack[..|base|] && stack[|base|] == v && Distinct(stack)
      requires forall x :: Lookup(onStack, x, false) <==> x in stack
      modifies this`stack, this`onStack
      ensures stack == base && |scc| > 0 && Distinct(scc) && Elems(scc) == Elems(old(stack)[|base|..])
      ensures forall x :: Lookup(onStack, x, false) <==> x in stack
    {
      scc := [];
      ghost var full := stack;
      while true
        invariant |base| < |stack| && stack == full[..|stack|]
        invariant forall x :: Lookup(onStack, x, false) <==> x in stack
        invariant Distinct(scc) && (forall x :: x in scc <==> x in full[|stack|..])
        decreases |stack|
      {
        var top := stack[|stack| - 1];
        DistinctAround(full, |stack| - 1);
        ghost var whole := stack;
        stack := stack[..|stack| - 1];
        assert whole == stack + [top] && stack == full[..|stack|];
        assert forall x :: x in whole <==> x in stack || x == top;
        onStack := onStack[top := false];
        scc := scc + [top];
        if top == v {
          break;
        }
      }
      assert stack == base;
    }

    /** Keep a component if it has several nodes or a self-loop. */
    method Record(scc: seq<string>)
      requires Recorded(G(), sccs, closed) && Distinct(scc) && |scc| > 0
      requires Elems(scc) !in closed && IsComponent(G(), Elems(scc))
      modifies this`sccs, this`closed
      ensures Recorded(G(), sccs, closed) && closed == old(closed) + {Elems(scc)}
    {
      hide Recorded, GraphOfSteps, IsComponent, IsCyclic, Elems, Distinct;
      SmallIsCyclic(G(), scc);
      var cyclic := |scc| > 1;
      if !cyclic {
        SoleMember(G(), scc);
        StepEdges(w, scc[0]);
        var edges := EdgesOf(StepById(w, scc[0]).value);
        var i := 0;
        while i < |edges|
          invariant 0 <= i <= |edges|
          invariant !cyclic && scc[0] !in edges[..i]
        {
          if edges[i] == scc[0] {
            cyclic := true;
            break;
          }
          i := i + 1;
        }
        assert i == |edges| ==> edges[..i] == edges;
      }
      RecordOne(G(), sccs, closed, scc, cyclic);
      closed := closed + {Elems(scc)};
      if cyclic {
        sccs := sccs + [scc];
      }
    }

    /** Search from every step not visited yet. */
    method Search()
      requires Valid() && index == map[] && gray == {} && stack == []
      modifies this
      ensures Valid() && ClosedNodes(Now()) == G().Keys
    {
      hide Sane, Recorded, GraphOfSteps, Reach, Returned;
      var i := 0;
      while i < |w.steps|
        invariant 0 <= i <= |w.steps|
        invariant Valid() && gray == {}
        invariant forall k :: 0 <= k < i ==> w.steps[k].id in index
      {
        var id := w.steps[i].id;
        if id !in index {
          ghost var before, at := Now(), counter;
          StrongConnect(id);
          ReturnedKeeps(G(), before, Now(), id, lowlink[id], at);
        }
        i := i + 1;
      }
      SearchIsComplete(w, Now(), counter);
    }
  }

  /** The cyclic strongly connected components of a workflow's step graph, each once
      and without repetition: every component returned is one, every one is
      returned, no two share a step, and a step lies on a cycle exactly when it is
      in one of them. */
  method FindCycles(w: Workflow) returns (cycles: seq<seq<string>>)
    ensures var g := GraphOfSteps(w);
            && (forall k :: 0 <= k < |cycles| ==> Distinct(cycles[k]) && IsCyclic(g, Elems(cycles[k])))
            && (forall c :: IsCyclic(g, c) ==> exists k :: 0 <= k < |cycles| && Elems(cycles[k]) == c)
            && (forall j, k :: 0 <= j < k < |cycles| ==> Elems(cycles[j]) !! Elems(cycles[k]))
            && (forall u :: OnCycle(g, u) <==> exists k :: 0 <= k < |cycles| && u in Elems(cycles[k]))
  {
    var finder := new CycleFinder(w);
    finder.Search();
    cycles := finder.sccs;
    FoundAll(GraphOfSteps(w), finder.Now(), finder.counter, cycles);
  }

  /** The step's own cap lies above the run's. */
  predicate NeverBinds(w: Workflow, id: string) {
    IsStep(w, id) && StepById(w, id).value.maxVisits > w.maxSteps
  }

  ghost predicate AllNeverBind(w: Workflow, c: set<string>) {
    forall id :: id in c ==> NeverBinds(w, id)
  }

  ghost function Components(lists: seq<seq<string>>): set<set<string>> {
    set s | s in lists :: Elems(s)
  }

  /** Rule 12: exactly the cyclic components all of whose steps have a cap above the
      run's own. */
  method UnboundCycles(w: Workflow) returns (bad: seq<seq<string>>)
    ensures forall c :: c in Components(bad) <==> IsCyclic(GraphOfSteps(w), c) && AllNeverBind(w, c)
  {
    hide GraphOfSteps, IsCyclic, OnCycle, Elems, Distinct, AllNeverBind;
    var cycles := FindCycles(w);
    assert forall c :: c in Components(cycles) <==> IsCyclic(GraphOfSteps(w), c);
    bad := [];
    var i := 0;
    while i < |cycles|
      invariant 0 <= i <= |cycles|
      invariant forall c :: c in Components(bad) <==> c in Components(cycles[..i]) && AllNeverBind(w, c)
    {
      var allAbove := AllAbove(w, cycles[i]);
      assert cycles[..i + 1] == cycles[..i] + [cycles[i]];
      ComponentsOfMore(cycles[..i], cycles[i]);
      if allAbove {
        ComponentsOfMore(bad, cycles[i]);
        bad := bad + [cycles[i]];
      }
      i := i + 1;
    }
    assert cycles[..i] == cycles;
  }

  lemma ComponentsOfMore(lists: seq<seq<string>>, one: seq<string>)
    ensures Components(lists + [one]) == Components(lists) + {Elems(one)}
  {
    hide Elems;
  }

  method AllAbove(w: Workflow, cycle: seq<string>) returns (all: bool)
    ensures all <==> AllNeverBind(w, Elems(cycle))
  {
    var i := 0;
    while i < |cycle|
      invariant 0 <= i <= |cycle|
      invariant forall k :: 0 <= k < i ==> NeverBinds(w, cycle[k])
    {
      if StepById(w, cycle[i]).None? || StepById(w, cycle[i]).value.maxVisits <= w.maxSteps {
        assert cycle[i] in Elems(cycle);
        return false;
      }
      i := i + 1;
    }
    all := true;
  }
}
