/** Depth-first search for EXTENDS cycles, with one visited set shared by the whole recursion. */
module CycleDetection {
  import opened Digraph
  import opened WorkflowModel

  type ExtendsGraph = map<Id, seq<Id>>

  function Children(g: ExtendsGraph, n: Id): seq<Id> {
    if n in g then g[n] else []
  }

  ghost function ExtendsArcs(g: ExtendsGraph): Arcs {
    set n, m | n in g && m in g[n] :: (n, m)
  }

  ghost predicate ClosedUnder(g: ExtendsGraph, s: set<Id>) {
    forall n, m :: n in s && m in Children(g, n) ==> m in s
  }

  ghost function Universe(g: ExtendsGraph, parents: seq<Id>): (u: set<Id>)
    ensures ClosedUnder(g, u) && forall p :: p in parents ==> p in u
  {
    Elements(parents) + set n, m | n in g && m in g[n] :: m
  }

  /** What was newly visited is not the target and leads only to visited nodes. */
  ghost predicate Explored(g: ExtendsGraph, target: Id, before: set<Id>, after: set<Id>) {
    forall n :: n in after && n !in before ==> n != target && ChildrenIn(g, n, after)
  }

  ghost predicate ChildrenIn(g: ExtendsGraph, n: Id, s: set<Id>) {
    forall m :: m in Children(g, n) ==> m in s
  }

  datatype CheckResult = Accepted | CycleDetected(parent: Id)

  class CycleChecker {
    const graph: ExtendsGraph
    var visited: set<Id>

    constructor (graph: ExtendsGraph)
      ensures this.graph == graph
    {
      this.graph := graph;
      visited := {};
    }

    /** Whether `current` reaches `target` without passing through what was visited before. */
    method CanReach(current: Id, target: Id, ghost universe: set<Id>) returns (r: bool)
      requires ClosedUnder(graph, universe) && current in universe
      modifies this
      ensures old(visited) <= visited
      ensures r ==> Reaches(ExtendsArcs(graph), current, target)
      ensures !r ==> current in visited
      ensures !r ==> Explored(graph, target, old(visited), visited)
      decreases universe - visited
    {
      if current == target {
        assert WalkTo(ExtendsArcs(graph), [current], target);
        return true;
      }
      if current in visited {
        return false;
      }
      visited := visited + {current};
      label Entered:
      var children := Children(graph, current);
      for i := 0 to |children|
        invariant old@Entered(visited) <= visited
        invariant forall j :: 0 <= j < i ==> children[j] in visited
        invariant Explored(graph, target, old@Entered(visited), visited)
      {
        var found := CanReach(children[i], target, universe);
        if found {
          StepThenReach(ExtendsArcs(graph), current, children[i], target);
          return true;
        }
      }
      return false;
    }

    /** Raises exactly when some new parent reaches the interface along existing EXTENDS edges. */
    method CheckInterfaceCycle(interface: Id, parents: seq<Id>) returns (r: CheckResult)
      modifies this
      ensures r.Accepted? <==> forall p :: p in parents ==> !Reaches(ExtendsArcs(graph), p, interface)
      ensures r.CycleDetected? ==> r.parent in parents && Reaches(ExtendsArcs(graph), r.parent, interface)
    {
      if parents == [] {
        return Accepted;
      }
      ghost var universe := Universe(graph, parents);
      for i := 0 to |parents|
        invariant forall j :: 0 <= j < i ==> !Reaches(ExtendsArcs(graph), parents[j], interface)
      {
        visited := {};
        var found := CanReach(parents[i], interface, universe);
        if found {
          return CycleDetected(parents[i]);
        }
        ClosedSetTrapsWalks(graph, visited, parents[i], interface);
      }
      return Accepted;
    }
  }

  lemma StepThenReach(arcs: Arcs, a: Id, b: Id, c: Id)
    requires (a, b) in arcs && Reaches(arcs, b, c)
    ensures Reaches(arcs, a, c)
  {
    var p :| WalkTo(arcs, p, c) && p[0] == b;
    var q := [a] + p;
    forall i | 0 <= i < |q| - 1 ensures (q[i], q[i + 1]) in arcs {
      if i > 0 { assert q[i] == p[i - 1] && q[i + 1] == p[i]; }
    }
    assert WalkTo(arcs, q, c);
  }

  /** Nothing outside a closed set is reachable from inside it. */
  lemma ClosedSetTrapsWalks(g: ExtendsGraph, s: set<Id>, a: Id, target: Id)
    requires a in s && target !in s && ClosedUnder(g, s)
    ensures !Reaches(ExtendsArcs(g), a, target)
  {
    forall p | WalkTo(ExtendsArcs(g), p, target) && p[0] == a ensures false {
      var i := 0;
      while i < |p| - 1
        invariant 0 <= i < |p| && p[i] in s
      {
        assert (p[i], p[i + 1]) in ExtendsArcs(g);
        i := i + 1;
      }
    }
  }

  ghost function NewArcs(interface: Id, parents: seq<Id>): Arcs {
    set p | p in parents :: (interface, p)
  }

  /** On an acyclic hierarchy the check decides exactly whether the new edges keep it acyclic. */
  lemma CheckDecidesAcyclicity(arcs: Arcs, interface: Id, parents: seq<Id>)
    requires Acyclic(arcs)
    ensures Acyclic(arcs + NewArcs(interface, parents)) <==>
            forall p :: p in parents ==> !Reaches(arcs, p, interface)
  {
    var arcs' := arcs + NewArcs(interface, parents);
    forall p | p in parents && Reaches(arcs, p, interface) ensures !Acyclic(arcs') {
      var q :| WalkTo(arcs, q, interface) && q[0] == p;
      assert WalkTo(arcs', q, interface) && (interface, p) in arcs';
      var c := [interface] + q;
      forall i | 0 <= i < |c| - 1 ensures (c[i], c[i + 1]) in arcs' {
        if i > 0 { assert c[i] == q[i - 1] && c[i + 1] == q[i]; }
      }
      assert Cycle(arcs', c);
    }
    forall c | Cycle(arcs', c) ensures exists p :: p in parents && Reaches(arcs, p, interface) {
      var p := CycleUsesNewArc(arcs, interface, parents, c);
    }
  }

  /** From a new arc on a cycle, the first return to the interface uses old arcs only. */
  lemma CycleUsesNewArc(arcs: Arcs, interface: Id, parents: seq<Id>, c: seq<Id>) returns (p: Id)
    requires Acyclic(arcs) && Cycle(arcs + NewArcs(interface, parents), c)
    ensures p in parents && Reaches(arcs, p, interface)
  {
    assert !Cycle(arcs, c);
    var k :| 0 <= k < |c| - 1 && (c[k], c[k + 1]) !in arcs;
    assert (c[k], c[k + 1]) in NewArcs(interface, parents);
    p := c[k + 1];
    var w, n := c + c[1..], |c| - 1;
    TwiceRound(arcs + NewArcs(interface, parents), c);
    assert w[k + n] == c[k] == interface && w[k + 1] == p;
    var m := FirstFrom(w, k + 1, k + n, interface);
    StretchIsWalk(arcs, interface, parents, w, k + 1, m);
    var q := w[k + 1..m + 1];
    assert WalkTo(arcs, q, interface) && q[0] == p;
  }

  lemma FirstFrom(w: seq<Id>, lo: nat, hi: nat, x: Id) returns (m: nat)
    requires lo <= hi < |w| && w[hi] == x
    ensures lo <= m <= hi && w[m] == x && forall i :: lo <= i < m ==> w[i] != x
  {
    m := lo;
    while w[m] != x
      invariant lo <= m <= hi
      invariant forall i :: lo <= i < m ==> w[i] != x
      decreases hi - m
    {
      m := m + 1;
    }
  }

  /** Going round a cycle twice is a walk that passes every node again. */
  lemma TwiceRound(arcs: Arcs, c: seq<Id>)
    requires Cycle(arcs, c)
    ensures var w, n := c + c[1..], |c| - 1;
            Walk(arcs, w) && |w| == 2 * n + 1 && forall i :: 0 <= i <= n ==> w[i] == c[i] && w[i + n] == c[i]
  {
    var w, n := c + c[1..], |c| - 1;
    forall i | 0 <= i <= n ensures w[i] == c[i] && w[i + n] == c[i] {
      if i > 0 { assert w[i + n] == c[1..][i - 1]; }
    }
    forall i | 0 <= i < |w| - 1 ensures (w[i], w[i + 1]) in arcs {
      if i >= n {
        assert w[i] == w[(i - n) + n] == c[i - n] && w[i + 1] == w[(i - n + 1) + n] == c[i - n + 1];
      }
    }
  }

  /** A stretch of a walk that does not leave the interface uses old arcs only. */
  lemma StretchIsWalk(arcs: Arcs, interface: Id, parents: seq<Id>, w: seq<Id>, lo: nat, hi: nat)
    requires Walk(arcs + NewArcs(interface, parents), w) && lo <= hi < |w| && w[hi] == interface
    requires forall i :: lo <= i < hi ==> w[i] != interface
    ensures WalkTo(arcs, w[lo..hi + 1], interface)
  {
    var q := w[lo..hi + 1];
    forall i | 0 <= i < |q| - 1 ensures (q[i], q[i + 1]) in arcs {
      assert q[i] == w[lo + i] && q[i + 1] == w[lo + i + 1];
      assert (w[lo + i], w[lo + i + 1]) in arcs + NewArcs(interface, parents);
    }
    assert q[|q| - 1] == w[hi];
  }
}
