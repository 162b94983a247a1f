/** Kahn's algorithm grouping workflow nodes into parallel execution layers. */
module TopologicalSort {
  import opened Ordering
  import opened Digraph
  import opened WorkflowModel

  datatype SortResult =
    | Layers(layers: seq<seq<Id>>)
    | CycleError
    | KeyError(target: Id)

  /** Lists, in ascending order, exactly the nodes that become ready in round `i`. */
  ghost predicate IsLayer(ids: set<Id>, arcs: Arcs, i: nat, layer: seq<Id>) {
    layer != [] && Ascending(layer) && Elements(layer) == Level(ids, arcs, i)
  }

  ghost predicate Layered(ids: set<Id>, arcs: Arcs, layers: seq<seq<Id>>) {
    LayersUpTo(ids, arcs, layers) && Level(ids, arcs, |layers|) == {}
  }

  /** Edges into `n` whose source is still outside `done`. */
  ghost function Pending(edges: seq<Edge>, done: set<Id>, n: Id): nat {
    if edges == [] then 0
    else
      var e := edges[|edges| - 1];
      Pending(edges[..|edges| - 1], done, n) + if e.dst == n && e.src !in done then 1 else 0
  }

  /** Targets of the edges out of `src`, in edge order. */
  ghost function Targets(edges: seq<Edge>, src: Id): seq<Id> {
    if edges == [] then []
    else
      var e := edges[|edges| - 1];
      Targets(edges[..|edges| - 1], src) + if e.src == src then [e.dst] else []
  }

  lemma {:induction false} PendingAfter(edges: seq<Edge>, done: set<Id>, src: Id, n: Id)
    requires src !in done
    ensures Pending(edges, done, n) == Pending(edges, done + {src}, n) + multiset(Targets(edges, src))[n]
  {
    if edges == [] {
    } else {
      PendingAfter(edges[..|edges| - 1], done, src, n);
    }
  }

  lemma {:induction false} PendingZeroIsReady(edges: seq<Edge>, done: set<Id>, n: Id)
    ensures Pending(edges, done, n) == 0 <==> Ready(ArcsOf(edges), done, n)
  {
    if edges == [] {
    } else {
      var front, e := edges[..|edges| - 1], edges[|edges| - 1];
      PendingZeroIsReady(front, done, n);
      assert edges == front + [e];
      assert ArcsOf(edges) == ArcsOf(front) + {(e.src, e.dst)} by { ArcsOfAppend(front, e); }
    }
  }

  lemma ArcsOfAppend(front: seq<Edge>, e: Edge)
    ensures ArcsOf(front + [e]) == ArcsOf(front) + {(e.src, e.dst)}
  {
    forall a | a in ArcsOf(front) ensures a in ArcsOf(front + [e]) {
      var f :| f in front && a == (f.src, f.dst);
      assert f in front + [e];
    }
    assert e in front + [e];
  }

  lemma {:induction false} TargetsAreArcs(edges: seq<Edge>, src: Id, n: Id)
    ensures n in Targets(edges, src) <==> (src, n) in ArcsOf(edges)
  {
    if edges == [] {
    } else {
      var front, e := edges[..|edges| - 1], edges[|edges| - 1];
      TargetsAreArcs(front, src, n);
      assert edges == front + [e];
      ArcsOfAppend(front, e);
    }
  }

  lemma CountAppend(front: seq<Edge>, e: Edge)
    ensures forall n :: Pending(front + [e], {}, n) == Pending(front, {}, n) + if e.dst == n then 1 else 0
    ensures forall s :: Targets(front + [e], s) == Targets(front, s) + if e.src == s then [e.dst] else []
  {
    assert (front + [e])[..|front + [e]| - 1] == front;
  }

  /** The entry of a `defaultdict(list)`. */
  function Neighbours(adjacency: map<Id, seq<Id>>, src: Id): seq<Id> {
    if src in adjacency then adjacency[src] else []
  }

  method BuildDegrees(ids: set<Id>, edges: seq<Edge>)
    returns (inDegree: map<Id, int>, adjacency: map<Id, seq<Id>>)
    ensures inDegree.Keys == ids
    ensures forall n :: n in ids ==> inDegree[n] == Pending(edges, {}, n)
    ensures forall s :: Neighbours(adjacency, s) == Targets(edges, s)
  {
    inDegree := map n | n in ids :: 0;
    adjacency := map[];
    for i := 0 to |edges|
      invariant inDegree.Keys == ids
      invariant forall n :: n in ids ==> inDegree[n] == Pending(edges[..i], {}, n)
      invariant forall s :: Neighbours(adjacency, s) == Targets(edges[..i], s)
    {
      var e := edges[i];
      assert edges[..i + 1] == edges[..i] + [e];
      CountAppend(edges[..i], e);
      if e.dst in ids {
        inDegree := inDegree[e.dst := inDegree[e.dst] + 1];
      }
      adjacency := adjacency[e.src := Neighbours(adjacency, e.src) + [e.dst]];
    }
    assert edges[..|edges|] == edges;
  }

  /** The nodes without incoming edges, in whatever order the set yields them. */
  method Seed(ids: set<Id>, inDegree: map<Id, int>) returns (queue: seq<Id>)
    requires inDegree.Keys == ids
    ensures Distinct(queue)
    ensures Elements(queue) == set n | n in ids && inDegree[n] == 0
  {
    queue := [];
    var rest := ids;
    while rest != {}
      invariant rest <= ids
      invariant Distinct(queue)
      invariant forall n :: n in Elements(queue) <==> n in ids && n !in rest && inDegree[n] == 0
      decreases rest
    {
      var n :| n in rest;
      rest := rest - {n};
      if inDegree[n] == 0 {
        assert n !in Elements(queue);
        ElementsAppend(queue, n);
        queue := queue + [n];
      }
    }
  }

  /** The queue holds the next level, and in-degrees count what is left. */
  ghost predicate QueueReady(ids: set<Id>, edges: seq<Edge>, k: nat, inDegree: map<Id, int>, queue: seq<Id>) {
    && DegreesDue(OpenEdges(ids, edges, Done(ids, ArcsOf(edges), k)), multiset{}, inDegree)
    && Distinct(queue) && Elements(queue) == Level(ids, ArcsOf(edges), k)
  }

  ghost predicate LayersUpTo(ids: set<Id>, arcs: Arcs, layers: seq<seq<Id>>) {
    forall i :: 0 <= i < |layers| ==> IsLayer(ids, arcs, i, layers[i])
  }

  ghost predicate TargetsKnown(ids: set<Id>, arcs: Arcs, done: set<Id>) {
    forall a :: a in arcs && a.0 in done ==> a.1 in ids
  }

  /** Everything the layer loop knows after `k` rounds. */
  ghost predicate AfterRounds(ids: set<Id>, edges: seq<Edge>, k: nat,
                              inDegree: map<Id, int>, queue: seq<Id>, layers: seq<seq<Id>>, visitedCount: int)
  {
    && |layers| == k
    && QueueReady(ids, edges, k, inDegree, queue)
    && LayersUpTo(ids, ArcsOf(edges), layers)
    && visitedCount == |Done(ids, ArcsOf(edges), k)|
    && TargetsKnown(ids, ArcsOf(edges), Done(ids, ArcsOf(edges), k))
  }

  /** How many edges into each id are still open once `gone` is off the graph. */
  ghost function OpenEdges(ids: set<Id>, edges: seq<Edge>, gone: set<Id>): map<Id, nat> {
    map n | n in ids :: Pending(edges, gone, n)
  }

  /**
   In-degrees count the open edges, except that the decrements in `due` are still to come;
   `next` lists the ids that reached degree zero since the `settled` ones did.
   */
  ghost predicate Draining(open: map<Id, nat>, settled: set<Id>, due: multiset<Id>, inDegree: map<Id, int>,
                           next: seq<Id>)
  {
    && DegreesDue(open, due, inDegree)
    && Distinct(next)
    && forall n :: n in next <==> n in open && n !in settled && inDegree[n] == 0
  }

  ghost predicate DegreesDue(open: map<Id, nat>, due: multiset<Id>, inDegree: map<Id, int>) {
    inDegree.Keys == open.Keys && forall n :: n in open ==> inDegree[n] == open[n] + due[n]
  }

  /** Removing a node turns its outgoing edges from open into due. */
  lemma DueAfter(ids: set<Id>, edges: seq<Edge>, settled: set<Id>, gone: set<Id>, src: Id, inDegree: map<Id, int>,
                 next: seq<Id>)
    requires Draining(OpenEdges(ids, edges, gone), settled, multiset{}, inDegree, next) && src !in gone
    ensures Draining(OpenEdges(ids, edges, gone + {src}), settled, multiset(Targets(edges, src)), inDegree, next)
  {
    forall n ensures Pending(edges, gone, n) == Pending(edges, gone + {src}, n) + multiset(Targets(edges, src))[n] {
      PendingAfter(edges, gone, src, n);
    }
  }

  /** One decrement. */
  lemma DrainStep(open: map<Id, nat>, settled: set<Id>, targets: seq<Id>, j: nat, inDegree: map<Id, int>,
                  next: seq<Id>)
    requires j < |targets| && targets[j] in open && targets[j] !in settled
    requires Draining(open, settled, multiset(targets[j..]), inDegree, next)
    ensures var t := targets[j];
            Draining(open, settled, multiset(targets[j + 1..]), inDegree[t := inDegree[t] - 1],
                     if inDegree[t] == 1 then next + [t] else next)
  {
    TailDue(targets, j);
    DrainOne(open, settled, targets[j], multiset(targets[j + 1..]), inDegree, next);
  }

  lemma TailDue(s: seq<Id>, j: nat)
    requires j < |s|
    ensures multiset(s[j..]) == multiset{s[j]} + multiset(s[j + 1..])
  {
    assert s[j..] == [s[j]] + s[j + 1..];
  }

  lemma DrainOne(open: map<Id, nat>, settled: set<Id>, t: Id, due: multiset<Id>, inDegree: map<Id, int>,
                 next: seq<Id>)
    requires t in open && t !in settled
    requires Draining(open, settled, multiset{t} + due, inDegree, next)
    ensures Draining(open, settled, due, inDegree[t := inDegree[t] - 1],
                     if inDegree[t] == 1 then next + [t] else next)
  {
    assert inDegree[t] > 0;
    assert t !in next;
  }

  /** Carries out the decrements along one node's edges; fails on a target that is not a node. */
  method DrainTargets(targets: seq<Id>, inDegree0: map<Id, int>, next0: seq<Id>, ghost open: map<Id, nat>,
                      ghost settled: set<Id>)
    returns (failed: bool, culprit: Id, inDegree: map<Id, int>, next: seq<Id>)
    requires Draining(open, settled, multiset(targets), inDegree0, next0)
    requires forall t :: t in targets ==> t !in settled
    ensures failed ==> culprit !in open && culprit in targets
    ensures !failed ==> forall t :: t in targets ==> t in open
    ensures !failed ==> Draining(open, settled, multiset{}, inDegree, next)
  {
    failed, culprit, inDegree, next := false, "", inDegree0, next0;
    assert targets[0..] == targets;
    for j := 0 to |targets|
      invariant !failed && inDegree.Keys == open.Keys
      invariant Draining(open, settled, multiset(targets[j..]), inDegree, next)
      invariant forall i :: 0 <= i < j ==> targets[i] in open
    {
      var t := targets[j];
      if t !in inDegree {
        return true, t, inDegree, next;
      }
      DrainStep(open, settled, targets, j, inDegree, next);
      inDegree := inDegree[t := inDegree[t] - 1];
      if inDegree[t] == 0 {
        next := next + [t];
      }
    }
  }

  /** Takes the nodes of one layer off the graph and collects the next layer. */
  method DrainLayer(ids: set<Id>, edges: seq<Edge>, adjacency: map<Id, seq<Id>>, queue: seq<Id>,
                    inDegree0: map<Id, int>, visitedCount0: int, ghost done: set<Id>, ghost settled: set<Id>)
    returns (failed: bool, culprit: Id, inDegree: map<Id, int>, visitedCount: int, next: seq<Id>)
    requires Draining(OpenEdges(ids, edges, done), settled, multiset{}, inDegree0, [])
    requires Distinct(queue) && Elements(queue) !! done
    requires forall s :: Neighbours(adjacency, s) == Targets(edges, s)
    requires forall a :: a in ArcsOf(edges) && a.0 in queue ==> a.1 !in settled
    ensures failed ==> culprit !in ids && exists s :: s in queue && (s, culprit) in ArcsOf(edges)
    ensures !failed ==> forall a :: a in ArcsOf(edges) && a.0 in queue ==> a.1 in ids
    ensures !failed ==> visitedCount == visitedCount0 + |queue|
    ensures !failed ==> Draining(OpenEdges(ids, edges, done + Elements(queue)), settled, multiset{}, inDegree, next)
  {
    failed, culprit, inDegree, visitedCount, next := false, "", inDegree0, visitedCount0, [];
    assert done + Elements(queue[..0]) == done;
    for i := 0 to |queue|
      invariant !failed && visitedCount == visitedCount0 + i
      invariant Draining(OpenEdges(ids, edges, done + Elements(queue[..i])), settled, multiset{}, inDegree, next)
      invariant forall a :: a in ArcsOf(edges) && a.0 in queue[..i] ==> a.1 in ids
    {
      var nid := queue[i];
      visitedCount := visitedCount + 1;
      ghost var gone := done + Elements(queue[..i]);
      PrefixElements(queue, i);
      var targets := Neighbours(adjacency, nid);
      forall t ensures t in targets <==> (nid, t) in ArcsOf(edges) {
        TargetsAreArcs(edges, nid, t);
      }
      forall t | t in targets ensures t !in settled {
        assert (nid, t).0 in queue;
      }
      assert done + Elements(queue[..i + 1]) == gone + {nid};
      DueAfter(ids, edges, settled, gone, nid, inDegree, next);
      failed, culprit, inDegree, next :=
        DrainTargets(targets, inDegree, next, OpenEdges(ids, edges, gone + {nid}), settled);
      if failed {
        return;
      }
      forall a | a in ArcsOf(edges) && a.0 in queue[..i + 1] ensures a.1 in ids {
        if a.0 == nid { assert a == (nid, a.1); }
      }
    }
    assert queue[..|queue|] == queue;
  }

  lemma DistinctSize<T>(s: seq<T>)
    requires Distinct(s)
    ensures |Elements(s)| == |s|
  {
    if s == [] {
    } else {
      DistinctSize(s[1..]);
      assert Elements(s) == {s[0]} + Elements(s[1..]);
    }
  }

  /** Degree zero after `k` rounds means done one round later. */
  lemma DegreeZeroIsDone(ids: set<Id>, edges: seq<Edge>, k: nat, inDegree: map<Id, int>)
    requires DegreesDue(OpenEdges(ids, edges, Done(ids, ArcsOf(edges), k)), multiset{}, inDegree)
    ensures forall n :: n in ids ==> (inDegree[n] == 0 <==> n in Done(ids, ArcsOf(edges), k + 1))
  {
    forall n | n in ids ensures inDegree[n] == 0 <==> n in Done(ids, ArcsOf(edges), k + 1) {
      PendingZeroIsReady(edges, Done(ids, ArcsOf(edges), k), n);
    }
  }

  /** What a round needs to know before it drains its queue. */
  lemma RoundStart(ids: set<Id>, edges: seq<Edge>, k: nat, inDegree: map<Id, int>, queue: seq<Id>,
                   layers: seq<seq<Id>>, visitedCount: int)
    requires AfterRounds(ids, edges, k, inDegree, queue, layers, visitedCount)
    ensures Draining(OpenEdges(ids, edges, Done(ids, ArcsOf(edges), k)), Done(ids, ArcsOf(edges), k + 1), multiset{},
                     inDegree, [])
    ensures forall a :: a in ArcsOf(edges) && a.0 in queue ==> a.1 !in Done(ids, ArcsOf(edges), k + 1)
    ensures Done(ids, ArcsOf(edges), k + 1) == Done(ids, ArcsOf(edges), k) + Elements(queue)
  {
    var arcs := ArcsOf(edges);
    DoneGrows(ids, arcs, k);
    DegreeZeroIsDone(ids, edges, k, inDegree);
    forall a | a in arcs && a.0 in queue ensures a.1 !in Done(ids, arcs, k + 1) {
      assert a.0 in Elements(queue);
      assert a.0 !in Done(ids, arcs, k);
    }
  }

  lemma SortedLayer(queue: seq<Id>)
    requires Distinct(queue)
    ensures |Ordering.Sort(queue)| == |queue| && Ascending(Ordering.Sort(queue))
    ensures Elements(Ordering.Sort(queue)) == Elements(queue)
  {
    SortAscends(queue);
    assert |multiset(queue)| == |queue| && |multiset(Ordering.Sort(queue))| == |Ordering.Sort(queue)|;
    var sorted := Ordering.Sort(queue);
    forall n ensures n in sorted <==> n in queue {
      assert n in sorted <==> n in multiset(sorted);
      assert n in queue <==> n in multiset(queue);
    }
  }

  lemma NextReady(ids: set<Id>, edges: seq<Edge>, k: nat, inDegree: map<Id, int>, next: seq<Id>)
    requires Draining(OpenEdges(ids, edges, Done(ids, ArcsOf(edges), k)), Done(ids, ArcsOf(edges), k), multiset{},
                      inDegree, next)
    ensures QueueReady(ids, edges, k, inDegree, next)
  {
    DegreeZeroIsDone(ids, edges, k, inDegree);
  }

  lemma CountUp(done: set<Id>, queue: seq<Id>)
    requires Distinct(queue) && done !! Elements(queue)
    ensures |done + Elements(queue)| == |done| + |queue|
  {
    DistinctSize(queue);
  }

  lemma LayersAppend(ids: set<Id>, arcs: Arcs, layers: seq<seq<Id>>, layer: seq<Id>)
    requires LayersUpTo(ids, arcs, layers) && IsLayer(ids, arcs, |layers|, layer)
    ensures LayersUpTo(ids, arcs, layers + [layer])
  {
  }

  lemma RoundEnd(ids: set<Id>, edges: seq<Edge>, k: nat, inDegree: map<Id, int>, queue: seq<Id>,
                 layers: seq<seq<Id>>, visitedCount: int, inDegree': map<Id, int>, next: seq<Id>, sorted: seq<Id>)
    requires AfterRounds(ids, edges, k, inDegree, queue, layers, visitedCount)
    requires sorted != [] && Ascending(sorted) && Elements(sorted) == Elements(queue)
    requires Draining(OpenEdges(ids, edges, Done(ids, ArcsOf(edges), k + 1)), Done(ids, ArcsOf(edges), k + 1),
                      multiset{}, inDegree', next)
    requires forall a :: a in ArcsOf(edges) && a.0 in queue ==> a.1 in ids
    ensures AfterRounds(ids, edges, k + 1, inDegree', next, layers + [sorted], visitedCount + |queue|)
    ensures Done(ids, ArcsOf(edges), k) < Done(ids, ArcsOf(edges), k + 1)
  {
    RoundStart(ids, edges, k, inDegree, queue, layers, visitedCount);
    assert sorted[0] in Elements(sorted);
    NextReady(ids, edges, k + 1, inDegree', next);
    CountUp(Done(ids, ArcsOf(edges), k), queue);
    LayersAppend(ids, ArcsOf(edges), layers, sorted);
  }

  /** An empty queue means that nothing else will ever become ready. */
  lemma NoMoreRounds(ids: set<Id>, arcs: Arcs, k: nat)
    requires Level(ids, arcs, k) == {}
    ensures Done(ids, arcs, k) == Done(ids, arcs, |ids|)
  {
    DoneSaturates(ids, arcs, k);
    if k <= |ids| { DoneStable(ids, arcs, k, |ids|); } else { DoneMonotone(ids, arcs, |ids|, k); }
  }

  /** Edges stay between known nodes and form no cycle. */
  ghost predicate Sortable(ids: set<Id>, arcs: Arcs) {
    && SourcesKnown(ids, arcs) && Acyclic(Into(ids, arcs))
    && forall a :: a in arcs && a.0 in ids ==> a.1 in ids
  }

  /** A node that does get its turn has an edge to an unknown node. */
  ghost predicate ReachesUnknown(ids: set<Id>, arcs: Arcs) {
    exists a :: a in arcs && a.0 in Done(ids, arcs, |ids|) && a.1 !in ids
  }

  lemma Verdict(ids: set<Id>, arcs: Arcs, done: set<Id>)
    requires done == Done(ids, arcs, |ids|)
    requires forall a :: a in arcs && a.0 in done ==> a.1 in ids
    ensures !ReachesUnknown(ids, arcs)
    ensures Sortable(ids, arcs) <==> |done| == |ids|
  {
    AllDoneIffAcyclic(ids, arcs);
    SubsetSize(done, ids);
  }

  lemma UnknownIsNotSortable(ids: set<Id>, arcs: Arcs, a: (Id, Id), k: nat)
    requires a in arcs && a.0 in Level(ids, arcs, k) && a.1 !in ids
    ensures ReachesUnknown(ids, arcs) && !Sortable(ids, arcs)
  {
    DoneSaturates(ids, arcs, k + 1);
  }

  lemma FirstRound(ids: set<Id>, edges: seq<Edge>, inDegree: map<Id, int>, queue: seq<Id>)
    requires DegreesDue(OpenEdges(ids, edges, {}), multiset{}, inDegree)
    requires Distinct(queue) && Elements(queue) == set n | n in ids && inDegree[n] == 0
    ensures AfterRounds(ids, edges, 0, inDegree, queue, [], 0)
  {
    DegreeZeroIsDone(ids, edges, 0, inDegree);
  }

  lemma LastRound(ids: set<Id>, edges: seq<Edge>, k: nat, inDegree: map<Id, int>, layers: seq<seq<Id>>,
                  visitedCount: int)
    requires AfterRounds(ids, edges, k, inDegree, [], layers, visitedCount)
    ensures visitedCount == |ids| <==> Sortable(ids, ArcsOf(edges))
    ensures !ReachesUnknown(ids, ArcsOf(edges)) && Layered(ids, ArcsOf(edges), layers)
  {
    var arcs := ArcsOf(edges);
    assert Level(ids, arcs, k) == {};
    NoMoreRounds(ids, arcs, k);
    Verdict(ids, arcs, Done(ids, arcs, k));
  }

  /** One pass of the layer loop. */
  method Round(ids: set<Id>, edges: seq<Edge>, adjacency: map<Id, seq<Id>>, inDegree0: map<Id, int>, queue: seq<Id>,
               layers0: seq<seq<Id>>, visitedCount0: int, ghost k: nat)
    returns (failed: bool, culprit: Id, inDegree: map<Id, int>, visitedCount: int, next: seq<Id>,
             layers: seq<seq<Id>>)
    requires AfterRounds(ids, edges, k, inDegree0, queue, layers0, visitedCount0) && queue != []
    requires forall s :: Neighbours(adjacency, s) == Targets(edges, s)
    ensures failed ==> ReachesUnknown(ids, ArcsOf(edges)) && !Sortable(ids, ArcsOf(edges))
    ensures !failed ==> AfterRounds(ids, edges, k + 1, inDegree, next, layers, visitedCount)
    ensures !failed ==> ids - Done(ids, ArcsOf(edges), k + 1) < ids - Done(ids, ArcsOf(edges), k)
  {
    ghost var arcs := ArcsOf(edges);
    RoundStart(ids, edges, k, inDegree0, queue, layers0, visitedCount0);
    ghost var done, settled := Done(ids, arcs, k), Done(ids, arcs, k + 1);
    var sorted := Ordering.Sort(queue);
    SortedLayer(queue);
    layers := layers0 + [sorted];
    failed, culprit, inDegree, visitedCount, next :=
      DrainLayer(ids, edges, adjacency, queue, inDegree0, visitedCount0, done, settled);
    if failed {
      ghost var s :| s in queue && (s, culprit) in arcs;
      assert s in Elements(queue);
      UnknownIsNotSortable(ids, arcs, (s, culprit), k);
    } else {
      RoundEnd(ids, edges, k, inDegree0, queue, layers0, visitedCount0, inDegree, next, sorted);
      assert settled <= ids;
    }
  }

  /** The degrees and adjacency of the graph, and the nodes that nothing points to. */
  method Start(ids: set<Id>, edges: seq<Edge>)
    returns (inDegree: map<Id, int>, adjacency: map<Id, seq<Id>>, queue: seq<Id>)
    ensures AfterRounds(ids, edges, 0, inDegree, queue, [], 0)
    ensures forall s :: Neighbours(adjacency, s) == Targets(edges, s)
  {
    inDegree, adjacency := BuildDegrees(ids, edges);
    queue := Seed(ids, inDegree);
    FirstRound(ids, edges, inDegree, queue);
  }

  /**
   Returns layers exactly when edges stay between known nodes and form no cycle. A reached edge
   to an unknown node raises `KeyError`; everything else that is wrong reads as a cycle.
   */
  method Sort(nodes: seq<Node>, edges: seq<Edge>) returns (r: SortResult)
    ensures r.Layers? <==> Sortable(NodeIds(nodes), ArcsOf(edges))
    ensures r.KeyError? <==> ReachesUnknown(NodeIds(nodes), ArcsOf(edges))
    ensures r.Layers? ==> Layered(NodeIds(nodes), ArcsOf(edges), r.layers)
  {
    var ids := NodeIds(nodes);
    var inDegree, adjacency, queue := Start(ids, edges);
    var layers, visitedCount := [], 0;
    ghost var k := 0;
    ghost var open := ids - Done(ids, ArcsOf(edges), k);
    while queue != []
      invariant AfterRounds(ids, edges, k, inDegree, queue, layers, visitedCount)
      invariant open == ids - Done(ids, ArcsOf(edges), k)
      decreases open
    {
      var failed, culprit;
      failed, culprit, inDegree, visitedCount, queue, layers :=
        Round(ids, edges, adjacency, inDegree, queue, layers, visitedCount, k);
      if failed {
        return KeyError(culprit);
      }
      k, open := k + 1, ids - Done(ids, ArcsOf(edges), k + 1);
    }
    LastRound(ids, edges, k, inDegree, layers, visitedCount);
    if visitedCount != |ids| {
      return CycleError;
    }
    return Layers(layers);
  }

  /** Every node is in exactly one layer, and its index is the length of the longest path into it. */
  lemma LayerIsDepth(ids: set<Id>, arcs: Arcs, layers: seq<seq<Id>>, n: Id)
    requires Layered(ids, arcs, layers) && SourcesKnown(ids, arcs) && Acyclic(Into(ids, arcs))
    requires n in ids
    ensures exists i :: 0 <= i < |layers| && n in layers[i] && LongestWalk(arcs, n, i)
    ensures forall i, j :: 0 <= i < |layers| && 0 <= j < |layers| && n in layers[i] && n in layers[j] ==> i == j
  {
    AllDoneIffAcyclic(ids, arcs);
    NoMoreRounds(ids, arcs, |layers|);
    var i := FirstDone(ids, arcs, |layers|, n);
    assert n in Elements(layers[i]);
    LevelIsLongestWalk(ids, arcs, i, n);
    forall a, b | 0 <= a < b < |layers| && n in layers[a] && n in layers[b] ensures false {
      assert n in Elements(layers[a]) && n in Elements(layers[b]);
      DoneMonotone(ids, arcs, a + 1, b);
    }
  }

  lemma {:induction false} FirstDone(ids: set<Id>, arcs: Arcs, k: nat, n: Id) returns (i: nat)
    requires n in Done(ids, arcs, k)
    ensures i < k && n in Level(ids, arcs, i)
  {
    if n in Done(ids, arcs, k - 1) {
      i := FirstDone(ids, arcs, k - 1, n);
    } else {
      i := k - 1;
    }
  }

  /** Edges always go to a strictly later layer. */
  lemma EdgesGoForward(ids: set<Id>, arcs: Arcs, layers: seq<seq<Id>>, a: (Id, Id), i: nat, j: nat)
    requires Layered(ids, arcs, layers)
    requires a in arcs && i < |layers| && j < |layers| && a.0 in layers[i] && a.1 in layers[j]
    ensures i < j
  {
    assert a.0 in Elements(layers[i]) && a.1 in Elements(layers[j]);
    assert a.0 in Done(ids, arcs, j);
    if j <= i { DoneMonotone(ids, arcs, j, i); }
  }

  /** The layers do not depend on the order of nodes or edges. */
  lemma LayersAreUnique(ids: set<Id>, arcs: Arcs, l: seq<seq<Id>>, m: seq<seq<Id>>)
    requires Layered(ids, arcs, l) && Layered(ids, arcs, m)
    ensures l == m
  {
    assert |l| >= |m| || IsLayer(ids, arcs, |l|, m[|l|]);
    assert |m| >= |l| || IsLayer(ids, arcs, |m|, l[|m|]);
    assert forall s: seq<Id> :: s != [] ==> s[0] in Elements(s);
    forall i | 0 <= i < |l| ensures l[i] == m[i] {
      assert IsLayer(ids, arcs, i, l[i]) && IsLayer(ids, arcs, i, m[i]);
      forall x ensures x in l[i] <==> x in m[i] {
        assert x in Elements(l[i]) <==> x in Elements(m[i]);
      }
      SortedByKeyUnique(x => x, l[i], m[i]);
    }
  }
}
