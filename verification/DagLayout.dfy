/** The viewer's own Kahn layering: tolerant of cycles, and placing every node on a grid. */
module DagLayout {
  import opened Ordering
  import opened Digraph
  import opened WorkflowModel
  import opened TopologicalSort

  const NODE_W := 180
  const NODE_H := 60
  const DIAMOND_SIZE := 50
  const LAYER_GAP_Y := 120
  const NODE_GAP_X := 220
  const PADDING := 40

  datatype Placed = Placed(node: Node, x: int, y: int, layer: nat)

  function Width(p: Placed): int {
    if p.node.kind == Condition then 2 * DIAMOND_SIZE else NODE_W
  }

  function Height(p: Placed): int {
    if p.node.kind == Condition then 2 * DIAMOND_SIZE else NODE_H
  }

  predicate Disjoint(p: Placed, q: Placed) {
    || p.x + Width(p) < q.x || q.x + Width(q) < p.x
    || p.y + Height(p) < q.y || q.y + Height(q) < p.y
  }

  ghost predicate DistinctIds(nodes: seq<Node>) {
    forall i, j :: 0 <= i < j < |nodes| ==> nodes[i].id != nodes[j].id
  }

  /** Tracked ids without open incoming edges after `k` rounds over the nodes `ids`. */
  ghost function Settled(tracked: set<Id>, ids: set<Id>, arcs: Arcs, k: nat): set<Id> {
    set n | n in tracked && Ready(arcs, Done(ids, arcs, k), n)
  }

  /** The queue of round `k`: what settles now and had not settled a round earlier. */
  ghost function Wave(tracked: set<Id>, ids: set<Id>, arcs: Arcs, k: nat): set<Id> {
    Settled(tracked, ids, arcs, k) - Before(tracked, ids, arcs, k)
  }

  ghost function Before(tracked: set<Id>, ids: set<Id>, arcs: Arcs, k: nat): set<Id> {
    if k == 0 then {} else Settled(tracked, ids, arcs, k - 1)
  }

  /** Among the nodes proper, settling is being done one round later, and a wave is a level. */
  lemma WaveIsLevel(tracked: set<Id>, ids: set<Id>, arcs: Arcs, k: nat)
    requires ids <= tracked
    ensures Settled(tracked, ids, arcs, k) * ids == Done(ids, arcs, k + 1)
    ensures Before(tracked, ids, arcs, k) * ids == Done(ids, arcs, k)
    ensures Before(tracked, ids, arcs, k) <= Settled(tracked, ids, arcs, k)
    ensures Wave(tracked, ids, arcs, k) * ids == Level(ids, arcs, k)
  {
    if k > 0 { DoneGrows(ids, arcs, k - 1); }
  }

  lemma DegreeZeroIsSettled(tracked: set<Id>, ids: set<Id>, edges: seq<Edge>, k: nat, degree: map<Id, int>)
    requires DegreesDue(OpenEdges(tracked, edges, Done(ids, ArcsOf(edges), k)), multiset{}, degree)
    ensures forall n :: n in tracked ==> (degree[n] == 0 <==> n in Settled(tracked, ids, ArcsOf(edges), k))
  {
    forall n | n in tracked ensures degree[n] == 0 <==> n in Settled(tracked, ids, ArcsOf(edges), k) {
      PendingZeroIsReady(edges, Done(ids, ArcsOf(edges), k), n);
    }
  }

  function Tracked(ids: set<Id>, edges: seq<Edge>): set<Id> {
    ids + set e | e in edges :: e.dst
  }

  /** The loop's number of rounds: waves come one after the other until one is empty. */
  ghost predicate IsDepth(tracked: set<Id>, ids: set<Id>, arcs: Arcs, depth: nat) {
    (forall k: nat :: k < depth ==> Wave(tracked, ids, arcs, k) != {}) && Wave(tracked, ids, arcs, depth) == {}
  }

  /** The tracked ids are the nodes and whatever edges point at. */
  ghost predicate Tracks(tracked: set<Id>, ids: set<Id>, edges: seq<Edge>) {
    forall n :: n in tracked <==> n in ids || Pending(edges, {}, n) > 0
  }

  lemma {:induction false} TracksTracked(tracked: set<Id>, ids: set<Id>, edges: seq<Edge>)
    requires Tracks(tracked, ids, edges)
    ensures tracked == Tracked(ids, edges)
  {
    forall n ensures n in tracked <==> n in Tracked(ids, edges) { PendingMeansTarget(edges, n); }
  }

  lemma {:induction false} PendingMeansTarget(edges: seq<Edge>, n: Id)
    ensures Pending(edges, {}, n) > 0 <==> exists e :: e in edges && e.dst == n
  {
    if edges == [] {
    } else {
      var front, last := edges[..|edges| - 1], edges[|edges| - 1];
      assert edges == front + [last];
      PendingMeansTarget(front, n);
      CountAppend(front, last);
      assert last in edges && forall e :: e in front ==> e in edges;
    }
  }

  ghost predicate Built(ids: set<Id>, edges: seq<Edge>, inDeg: map<Id, int>, adj: map<Id, seq<Id>>) {
    && Tracks(inDeg.Keys, ids, edges)
    && (forall n :: n in inDeg ==> inDeg[n] == Pending(edges, {}, n))
    && adj.Keys == ids && forall s :: s in adj ==> adj[s] == Targets(edges, s)
  }

  lemma BuildStep(ids: set<Id>, front: seq<Edge>, e: Edge, inDeg: map<Id, int>, adj: map<Id, seq<Id>>)
    requires Built(ids, front, inDeg, adj)
    ensures Built(ids, front + [e], inDeg[e.dst := (if e.dst in inDeg then inDeg[e.dst] else 0) + 1],
                  if e.src in adj then adj[e.src := adj[e.src] + [e.dst]] else adj)
  {
    CountAppend(front, e);
  }

  method BuildDegrees(ids: set<Id>, edges: seq<Edge>) returns (inDeg: map<Id, int>, adj: map<Id, seq<Id>>)
    ensures Built(ids, edges, inDeg, adj)
  {
    inDeg := map n | n in ids :: 0;
    adj := map n | n in ids :: [];
    for i := 0 to |edges|
      invariant Built(ids, edges[..i], inDeg, adj)
    {
      var e := edges[i];
      assert edges[..i + 1] == edges[..i] + [e];
      BuildStep(ids, edges[..i], e, inDeg, adj);
      if e.src in adj {
        adj := adj[e.src := adj[e.src] + [e.dst]];
      }
      inDeg := inDeg[e.dst := (if e.dst in inDeg then inDeg[e.dst] else 0) + 1];
    }
    assert edges[..|edges|] == edges;
  }

  /** The layering loop's state after `k` rounds; `visited` holds everything queued before. */
  ghost predicate AfterWaves(tracked: set<Id>, ids: set<Id>, edges: seq<Edge>, k: nat, inDeg: map<Id, int>,
                             queue: seq<Id>, layers: seq<seq<Id>>, visited: set<Id>)
  {
    var arcs := ArcsOf(edges);
    && |layers| == k
    && DegreesDue(OpenEdges(tracked, edges, Done(ids, arcs, k)), multiset{}, inDeg)
    && Distinct(queue) && Elements(queue) == Wave(tracked, ids, arcs, k)
    && (forall i :: 0 <= i < k ==> layers[i] != [] && IsWave(tracked, ids, arcs, i, layers[i]))
    && visited == Before(tracked, ids, arcs, k)
  }

  ghost predicate IsWave(tracked: set<Id>, ids: set<Id>, arcs: Arcs, i: nat, layer: seq<Id>) {
    Distinct(layer) && Elements(layer) == Wave(tracked, ids, arcs, i)
  }

  /** Nothing is left to count down for these ids, so none of them can be queued again. */
  ghost predicate Spent(inDeg: map<Id, int>, s: set<Id>) {
    forall n :: n in s ==> n in inDeg && inDeg[n] <= 0
  }

  /** What holds for any list of nodes: queued ids are spent, and the next round's are new. */
  ghost predicate Counting(inDeg: map<Id, int>, queued: set<Id>, next: seq<Id>) {
    Spent(inDeg, queued) && Spent(inDeg, Elements(next)) && Elements(next) !! queued
  }

  lemma CountDown(inDeg: map<Id, int>, queued: set<Id>, next: seq<Id>, t: Id)
    requires Counting(inDeg, queued, next) && t in inDeg
    ensures var d := inDeg[t] - 1;
            Counting(inDeg[t := d], queued, if d == 0 then next + [t] else next)
  {
    ElementsAppend(next, t);
  }

  /** The decrements along one id's edges; `exact` when no id is listed twice. */
  method DrainTargets(targets: seq<Id>, inDeg0: map<Id, int>, next0: seq<Id>, visited: set<Id>,
                      ghost queued: set<Id>, ghost exact: bool, ghost open: map<Id, nat>, ghost settled: set<Id>)
    returns (inDeg: map<Id, int>, next: seq<Id>)
    requires Counting(inDeg0, queued, next0) && visited <= queued && forall t :: t in targets ==> t in inDeg0
    requires exact ==> Draining(open, settled, multiset(targets), inDeg0, next0)
    requires exact ==> forall t :: t in targets ==> t in open && t !in settled
    ensures Counting(inDeg, queued, next) && inDeg.Keys == inDeg0.Keys
    ensures exact ==> Draining(open, settled, multiset{}, inDeg, next)
  {
    inDeg, next := inDeg0, next0;
    assert targets[0..] == targets;
    for j := 0 to |targets|
      invariant Counting(inDeg, queued, next) && inDeg.Keys == inDeg0.Keys
      invariant exact ==> Draining(open, settled, multiset(targets[j..]), inDeg, next)
    {
      var t := targets[j];
      CountDown(inDeg, queued, next, t);
      if exact { DrainStep(open, settled, targets, j, inDeg, next); }
      var d := (if t in inDeg then inDeg[t] else 1) - 1;
      inDeg := inDeg[t := d];
      if d == 0 && t !in visited {
        next := next + [t];
      }
    }
  }

  /** Targets of a node in wave `k` are tracked and have not settled. */
  lemma {:induction false} TargetsOpen(tracked: set<Id>, ids: set<Id>, edges: seq<Edge>, k: nat, n: Id)
    requires Tracks(tracked, ids, edges)
    requires n in Wave(tracked, ids, ArcsOf(edges), k) && n in ids
    ensures n !in Done(ids, ArcsOf(edges), k)
    ensures forall t :: t in Targets(edges, n) ==> t in tracked && t !in Settled(tracked, ids, ArcsOf(edges), k)
  {
    var arcs := ArcsOf(edges);
    WaveIsLevel(tracked, ids, arcs, k);
    assert n in Level(ids, arcs, k);
    forall t | t in Targets(edges, n) ensures t in tracked && t !in Settled(tracked, ids, arcs, k) {
      TargetsAreArcs(edges, n, t);
      assert (n, t) in arcs && (n, t).1 == t && (n, t).0 == n;
      PendingZeroIsReady(edges, {}, t);
    }
  }

  /** What has been taken off once the queue's ids in `seen` had their turn. */
  ghost predicate MidWave(tracked: set<Id>, ids: set<Id>, edges: seq<Edge>, k: nat, seen: set<Id>,
                          inDeg: map<Id, int>, next: seq<Id>)
  {
    Draining(OpenEdges(tracked, edges, Done(ids, ArcsOf(edges), k) + seen * ids),
             Settled(tracked, ids, ArcsOf(edges), k), multiset{}, inDeg, next)
  }

  lemma TargetsTracked(edges: seq<Edge>, n: Id, ids: set<Id>, tracked: set<Id>)
    requires Tracks(tracked, ids, edges)
    ensures forall t :: t in Targets(edges, n) ==> t in tracked
  {
    forall t | t in Targets(edges, n) ensures t in tracked {
      TargetsAreArcs(edges, n, t);
      assert (n, t) in ArcsOf(edges);
      PendingMeansTarget(edges, t);
    }
  }

  method DrainQueued(ids: set<Id>, edges: seq<Edge>, adj: map<Id, seq<Id>>, id: Id, inDeg0: map<Id, int>,
                     next0: seq<Id>, visited: set<Id>, ghost queued: set<Id>, ghost exact: bool,
                     ghost tracked: set<Id>, ghost k: nat, ghost seen: set<Id>)
    returns (inDeg: map<Id, int>, next: seq<Id>)
    requires Tracks(tracked, ids, edges) && inDeg0.Keys == tracked
    requires Counting(inDeg0, queued, next0) && visited <= queued
    requires adj.Keys == ids && forall s :: s in adj ==> adj[s] == Targets(edges, s)
    requires exact ==> MidWave(tracked, ids, edges, k, seen, inDeg0, next0)
    requires exact ==> id in Wave(tracked, ids, ArcsOf(edges), k) && id !in seen
    ensures Counting(inDeg, queued, next) && inDeg.Keys == tracked
    ensures exact ==> MidWave(tracked, ids, edges, k, seen + {id}, inDeg, next)
  {
    inDeg, next := inDeg0, next0;
    if id in adj {
      ghost var gone := Done(ids, ArcsOf(edges), k) + seen * ids;
      ghost var settled := Settled(tracked, ids, ArcsOf(edges), k);
      TargetsTracked(edges, id, ids, tracked);
      if exact {
        TargetsOpen(tracked, ids, edges, k, id);
        DueAfter(tracked, edges, settled, gone, id, inDeg, next);
      }
      inDeg, next :=
        DrainTargets(adj[id], inDeg, next, visited, queued, exact, OpenEdges(tracked, edges, gone + {id}), settled);
    }
    SeeOne(Done(ids, ArcsOf(edges), k), seen, ids, id);
  }

  lemma SeeOne(done: set<Id>, seen: set<Id>, ids: set<Id>, id: Id)
    ensures done + (seen + {id}) * ids == if id in ids then done + seen * ids + {id} else done + seen * ids
  {
  }

  method DrainWave(ids: set<Id>, edges: seq<Edge>, adj: map<Id, seq<Id>>, queue: seq<Id>, inDeg0: map<Id, int>,
                   visited0: set<Id>, ghost exact: bool, ghost tracked: set<Id>, ghost k: nat)
    returns (inDeg: map<Id, int>, visited: set<Id>, next: seq<Id>)
    requires Tracks(tracked, ids, edges) && inDeg0.Keys == tracked
    requires Spent(inDeg0, visited0 + Elements(queue))
    requires adj.Keys == ids && forall s :: s in adj ==> adj[s] == Targets(edges, s)
    requires exact ==> WaveQueued(tracked, ids, edges, k, inDeg0, queue, visited0)
    ensures visited == visited0 + Elements(queue)
    ensures Counting(inDeg, visited, next) && inDeg.Keys == tracked
    ensures exact ==> visited == Settled(tracked, ids, ArcsOf(edges), k)
    ensures exact ==> Draining(OpenEdges(tracked, edges, Done(ids, ArcsOf(edges), k + 1)),
                               Settled(tracked, ids, ArcsOf(edges), k), multiset{}, inDeg, next)
  {
    inDeg, visited, next := inDeg0, visited0, [];
    ghost var seen, queued := {}, visited0 + Elements(queue);
    if exact { WaveStart(tracked, ids, edges, k, inDeg); }
    for i := 0 to |queue|
      invariant seen == Elements(queue[..i]) && visited == visited0 + seen
      invariant Counting(inDeg, queued, next) && inDeg.Keys == tracked
      invariant exact ==> MidWave(tracked, ids, edges, k, seen, inDeg, next)
    {
      var id := queue[i];
      assert id in Elements(queue);
      PrefixGrows(queue, i);
      if exact { PrefixElements(queue, i); }
      visited := visited + {id};
      inDeg, next := DrainQueued(ids, edges, adj, id, inDeg, next, visited, queued, exact, tracked, k, seen);
      seen := seen + {id};
    }
    assert queue[..|queue|] == queue;
    if exact { MidWaveEnd(tracked, ids, edges, k, inDeg, next); }
  }

  /** With no id listed twice, the queue is the wave, and the counts are those of the open edges. */
  ghost predicate WaveQueued(tracked: set<Id>, ids: set<Id>, edges: seq<Edge>, k: nat, inDeg: map<Id, int>,
                             queue: seq<Id>, visited: set<Id>)
  {
    && DegreesDue(OpenEdges(tracked, edges, Done(ids, ArcsOf(edges), k)), multiset{}, inDeg)
    && Distinct(queue) && Elements(queue) == Wave(tracked, ids, ArcsOf(edges), k)
    && visited == Before(tracked, ids, ArcsOf(edges), k)
  }

  lemma PrefixGrows(s: seq<Id>, i: nat)
    requires i < |s|
    ensures Elements(s[..i + 1]) == Elements(s[..i]) + {s[i]} <= Elements(s)
  {
    assert s[..i + 1] == s[..i] + [s[i]];
    ElementsAppend(s[..i], s[i]);
  }

  lemma {:induction false} MidWaveEnd(tracked: set<Id>, ids: set<Id>, edges: seq<Edge>, k: nat, inDeg: map<Id, int>,
                                      next: seq<Id>)
    requires ids <= tracked && MidWave(tracked, ids, edges, k, Wave(tracked, ids, ArcsOf(edges), k), inDeg, next)
    ensures Draining(OpenEdges(tracked, edges, Done(ids, ArcsOf(edges), k + 1)),
                     Settled(tracked, ids, ArcsOf(edges), k), multiset{}, inDeg, next)
  {
    WaveIsLevel(tracked, ids, ArcsOf(edges), k);
    DoneGrows(ids, ArcsOf(edges), k);
    assert Done(ids, ArcsOf(edges), k) + Wave(tracked, ids, ArcsOf(edges), k) * ids == Done(ids, ArcsOf(edges), k + 1);
  }

  lemma WaveStart(tracked: set<Id>, ids: set<Id>, edges: seq<Edge>, k: nat, inDeg: map<Id, int>)
    requires ids <= tracked && DegreesDue(OpenEdges(tracked, edges, Done(ids, ArcsOf(edges), k)), multiset{}, inDeg)
    ensures MidWave(tracked, ids, edges, k, {}, inDeg, [])
    ensures Before(tracked, ids, ArcsOf(edges), k) <= Settled(tracked, ids, ArcsOf(edges), k)
  {
    DegreeZeroIsSettled(tracked, ids, edges, k, inDeg);
    WaveIsLevel(tracked, ids, ArcsOf(edges), k);
    assert Done(ids, ArcsOf(edges), k) + {} * ids == Done(ids, ArcsOf(edges), k);
  }

  lemma WaveEnd(tracked: set<Id>, ids: set<Id>, edges: seq<Edge>, k: nat, queue: seq<Id>, inDeg: map<Id, int>,
                layers: seq<seq<Id>>, visited: set<Id>, inDeg': map<Id, int>, next: seq<Id>)
    requires ids <= tracked && queue != []
    requires AfterWaves(tracked, ids, edges, k, inDeg, queue, layers, visited)
    requires Draining(OpenEdges(tracked, edges, Done(ids, ArcsOf(edges), k + 1)),
                      Settled(tracked, ids, ArcsOf(edges), k), multiset{}, inDeg', next)
    ensures AfterWaves(tracked, ids, edges, k + 1, inDeg', next, layers + [queue],
                       Settled(tracked, ids, ArcsOf(edges), k))
  {
    var arcs := ArcsOf(edges);
    DegreeZeroIsSettled(tracked, ids, edges, k + 1, inDeg');
    WaveIsLevel(tracked, ids, arcs, k);
    assert Elements(next) == Wave(tracked, ids, arcs, k + 1);
    var layers' := layers + [queue];
    forall i | 0 <= i < k + 1 ensures layers'[i] != [] && IsWave(tracked, ids, arcs, i, layers'[i]) {
      if i < k { assert layers'[i] == layers[i]; } else { assert layers'[i] == queue; }
    }
  }

  /** Every visited id is in some layer. */
  ghost predicate Collected(layers: seq<seq<Id>>, visited: set<Id>) {
    forall x :: x in visited ==> exists l :: 0 <= l < |layers| && x in layers[l]
  }

  lemma LayeredAppend(layers: seq<seq<Id>>, visited: set<Id>, queue: seq<Id>)
    requires Collected(layers, visited)
    ensures Collected(layers + [queue], visited + Elements(queue))
  {
    var all := layers + [queue];
    forall x | x in visited + Elements(queue) ensures exists l :: 0 <= l < |all| && x in all[l] {
      if x in visited {
        var l :| 0 <= l < |layers| && x in layers[l];
        assert all[l] == layers[l];
      } else {
        assert all[|layers|] == queue;
      }
    }
  }

  /** Layers of waves until nothing new settles. */
  method Layering(nodes: seq<Node>, edges: seq<Edge>) returns (layers: seq<seq<Id>>, visited: set<Id>)
    ensures Collected(layers, visited)
    ensures DistinctIds(nodes) ==> WavesOf(NodeIds(nodes), edges, layers, visited)
  {
    var ids := NodeIds(nodes);
    ghost var exact := DistinctIds(nodes);
    var inDeg, adj := BuildDegrees(ids, edges);
    ghost var tracked := inDeg.Keys;
    var queue := Select(nodes, id requires id in inDeg => inDeg[id] == 0);
    if exact { RootsAreFirstWave(tracked, ids, edges, inDeg, queue); }
    layers, visited := [], {};
    ghost var k := 0;
    while queue != []
      invariant inDeg.Keys == tracked && visited <= tracked
      invariant Counting(inDeg, visited, queue) && Collected(layers, visited)
      invariant exact ==> AfterWaves(tracked, ids, edges, k, inDeg, queue, layers, visited)
      decreases tracked - visited
    {
      assert queue[0] in Elements(queue);
      LayeredAppend(layers, visited, queue);
      var inDeg', visited', next := DrainWave(ids, edges, adj, queue, inDeg, visited, exact, tracked, k);
      if exact { WaveEnd(tracked, ids, edges, k, queue, inDeg, layers, visited, inDeg', next); }
      layers := layers + [queue];
      inDeg, visited, queue := inDeg', visited', next;
      k := k + 1;
    }
    if exact {
      TracksTracked(tracked, ids, edges);
      LastWave(tracked, ids, edges, inDeg, layers, visited);
    }
  }

  lemma LastWave(tracked: set<Id>, ids: set<Id>, edges: seq<Edge>, inDeg: map<Id, int>, layers: seq<seq<Id>>,
                 visited: set<Id>)
    requires tracked == Tracked(ids, edges)
    requires AfterWaves(tracked, ids, edges, |layers|, inDeg, [], layers, visited)
    ensures WavesOf(ids, edges, layers, visited)
  {
    var arcs := ArcsOf(edges);
    WaveIsLevel(tracked, ids, arcs, |layers|);
    NoMoreRounds(ids, arcs, |layers|);
    forall i: nat | i < |layers| ensures Wave(tracked, ids, arcs, i) != {} {
      assert IsWave(tracked, ids, arcs, i, layers[i]) && layers[i][0] in Elements(layers[i]);
    }
  }

  /** All waves, and the nodes in them. */
  ghost predicate WavesOf(ids: set<Id>, edges: seq<Edge>, layers: seq<seq<Id>>, visited: set<Id>) {
    var tracked, arcs := Tracked(ids, edges), ArcsOf(edges);
    && IsDepth(tracked, ids, arcs, |layers|)
    && (forall i :: 0 <= i < |layers| ==> IsWave(tracked, ids, arcs, i, layers[i]))
    && visited * ids == Done(ids, arcs, |layers|) == Done(ids, arcs, |ids|)
  }

  lemma RootsAreFirstWave(tracked: set<Id>, ids: set<Id>, edges: seq<Edge>, inDeg: map<Id, int>, queue: seq<Id>)
    requires Tracks(tracked, ids, edges) && DegreesDue(OpenEdges(tracked, edges, {}), multiset{}, inDeg)
    requires Distinct(queue) && forall n :: n in queue <==> n in ids && inDeg[n] == 0
    ensures AfterWaves(tracked, ids, edges, 0, inDeg, queue, [], {})
  {
    DegreeZeroIsSettled(tracked, ids, edges, 0, inDeg);
  }

  /** Ids of the nodes that satisfy a test, in node order. */
  method Select(nodes: seq<Node>, keep: Id --> bool) returns (r: seq<Id>)
    requires forall n :: n in nodes ==> keep.requires(n.id)
    ensures DistinctIds(nodes) ==> Distinct(r)
    ensures forall x :: x in r <==> x in NodeIds(nodes) && keep(x)
  {
    r := [];
    for i := 0 to |nodes|
      invariant DistinctIds(nodes) ==> Distinct(r)
      invariant forall x :: x in r <==> exists j :: 0 <= j < i && nodes[j].id == x && keep(x)
    {
      if keep(nodes[i].id) {
        r := r + [nodes[i].id];
      }
    }
  }

  /** The id of a box sits in its layer at the slot its coordinates encode. */
  ghost predicate OnGrid(layers: seq<seq<Id>>, p: Placed, slot: int) {
    && p.layer < |layers| && 0 <= slot < |layers[p.layer]| && layers[p.layer][slot] == p.node.id
    && p.x == PADDING + slot * NODE_GAP_X + (NODE_GAP_X - NODE_W) / 2
    && p.y == PADDING + p.layer * LAYER_GAP_Y
  }

  ghost predicate AllOnGrid(nodeMap: map<Id, Node>, layers: seq<seq<Id>>, r: seq<Placed>) {
    && (forall p :: p in r ==> exists slot :: OnGrid(layers, p, slot))
    && (forall p :: p in r ==> p.node.id in nodeMap && nodeMap[p.node.id] == p.node)
    && (forall a, b :: 0 <= a < b < |r| ==> Precedes(r[a], r[b]))
  }

  /** Row-major order with a full column of space. */
  predicate Precedes(p: Placed, q: Placed) {
    p.layer < q.layer || (p.layer == q.layer && p.x + NODE_GAP_X <= q.x)
  }

  ghost predicate PlacedAt(r: seq<Placed>, id: Id, layer: nat) {
    exists p :: p in r && p.node.id == id && p.layer == layer
  }

  lemma PlacedAtAppend(r: seq<Placed>, q: Placed)
    ensures forall id, l :: PlacedAt(r, id, l) ==> PlacedAt(r + [q], id, l)
    ensures PlacedAt(r + [q], q.node.id, q.layer)
  {
    assert q in r + [q];
    forall p | p in r ensures p in r + [q] {}
  }

  lemma GridAppend(nodeMap: map<Id, Node>, layers: seq<seq<Id>>, r: seq<Placed>, q: Placed, slot: int)
    requires AllOnGrid(nodeMap, layers, r) && OnGrid(layers, q, slot)
    requires q.node.id in nodeMap && nodeMap[q.node.id] == q.node
    requires forall p :: p in r ==> Precedes(p, q)
    ensures AllOnGrid(nodeMap, layers, r + [q])
  {
    forall a, b | 0 <= a < b < |r + [q]| ensures Precedes((r + [q])[a], (r + [q])[b]) {
      if b == |r| { assert r[a] in r; }
    }
  }

  /** Known ids get coordinates by layer and position; unknown ids only use up their position. */
  method Place(nodeMap: map<Id, Node>, layers: seq<seq<Id>>) returns (r: seq<Placed>)
    requires forall id :: id in nodeMap ==> nodeMap[id].id == id
    ensures AllOnGrid(nodeMap, layers, r)
    ensures forall l, i :: 0 <= l < |layers| && 0 <= i < |layers[l]| && layers[l][i] in nodeMap
              ==> PlacedAt(r, layers[l][i], l)
  {
    r := [];
    for layerIdx := 0 to |layers|
      invariant AllOnGrid(nodeMap, layers, r) && forall p :: p in r ==> p.layer < layerIdx
      invariant forall l, i :: 0 <= l < layerIdx && 0 <= i < |layers[l]| && layers[l][i] in nodeMap
                  ==> PlacedAt(r, layers[l][i], l)
    {
      var layer := layers[layerIdx];
      for i := 0 to |layer|
        invariant AllOnGrid(nodeMap, layers, r)
        invariant forall p :: p in r ==>
                    p.layer < layerIdx || (p.layer == layerIdx && p.x <= PADDING + (i - 1) * NODE_GAP_X + 20)
        invariant forall l, j :: 0 <= l < layerIdx && 0 <= j < |layers[l]| && layers[l][j] in nodeMap
                    ==> PlacedAt(r, layers[l][j], l)
        invariant forall j :: 0 <= j < i && layer[j] in nodeMap ==> PlacedAt(r, layer[j], layerIdx)
      {
        if layer[i] in nodeMap {
          var p := Placed(nodeMap[layer[i]], PADDING + i * NODE_GAP_X + (NODE_GAP_X - NODE_W) / 2,
                          PADDING + layerIdx * LAYER_GAP_Y, layerIdx);
          GridAppend(nodeMap, layers, r, p, i);
          PlacedAtAppend(r, p);
          r := r + [p];
        }
      }
    }
  }

  /** Each box is in the layer of its depth, or in the extra layer `depth` when it has none. */
  ghost predicate LaidOut(ids: set<Id>, arcs: Arcs, depth: nat, p: Placed) {
    if p.layer < depth then p.node.id in Level(ids, arcs, p.layer)
    else p.layer == depth && p.node.id in ids && p.node.id !in Done(ids, arcs, |ids|)
  }

  /** The waves, and below them one layer with the nodes that never settled, if there are any. */
  ghost predicate FinalLayers(ids: set<Id>, edges: seq<Edge>, depth: nat, layers: seq<seq<Id>>) {
    var tracked, arcs := Tracked(ids, edges), ArcsOf(edges);
    && IsDepth(tracked, ids, arcs, depth) && Done(ids, arcs, depth) == Done(ids, arcs, |ids|)
    && depth <= |layers| <= depth + 1
    && (forall i :: 0 <= i < depth ==> IsWave(tracked, ids, arcs, i, layers[i]))
    && (if |layers| == depth then ids <= Done(ids, arcs, depth)
        else Distinct(layers[depth]) && Elements(layers[depth]) == ids - Done(ids, arcs, depth))
  }

  lemma PlaceIsDepth(ids: set<Id>, edges: seq<Edge>, depth: nat, layers: seq<seq<Id>>, l: nat, i: nat)
    requires FinalLayers(ids, edges, depth, layers)
    requires l < |layers| && i < |layers[l]| && layers[l][i] in ids
    ensures if l < depth then layers[l][i] in Level(ids, ArcsOf(edges), l)
            else layers[l][i] !in Done(ids, ArcsOf(edges), |ids|)
  {
    var tracked, arcs := Tracked(ids, edges), ArcsOf(edges);
    assert layers[l][i] in Elements(layers[l]);
    if l < depth {
      WaveIsLevel(tracked, ids, arcs, l);
      assert IsWave(tracked, ids, arcs, l, layers[l]);
      assert layers[l][i] in Wave(tracked, ids, arcs, l) * ids;
    }
  }

  lemma OneLayer(ids: set<Id>, edges: seq<Edge>, depth: nat, layers: seq<seq<Id>>, l: nat, i: nat, m: nat, j: nat)
    requires FinalLayers(ids, edges, depth, layers)
    requires l < |layers| && i < |layers[l]| && m < |layers| && j < |layers[m]|
    requires layers[l][i] == layers[m][j] && layers[l][i] in ids && l <= m
    ensures l == m
  {
    var arcs := ArcsOf(edges);
    PlaceIsDepth(ids, edges, depth, layers, l, i);
    PlaceIsDepth(ids, edges, depth, layers, m, j);
    if l < depth { LevelSettles(ids, arcs, layers[l][i], l); }
    if m < depth { OneLevel(ids, arcs, layers[l][i], l, m); }
  }

  lemma OnePlace(ids: set<Id>, edges: seq<Edge>, depth: nat, layers: seq<seq<Id>>, l: nat, i: nat, m: nat, j: nat)
    requires FinalLayers(ids, edges, depth, layers)
    requires l < |layers| && i < |layers[l]| && m < |layers| && j < |layers[m]|
    requires layers[l][i] == layers[m][j] && layers[l][i] in ids && l <= m
    ensures l == m && i == j
  {
    OneLayer(ids, edges, depth, layers, l, i, m, j);
    assert l < depth ==> IsWave(Tracked(ids, edges), ids, ArcsOf(edges), l, layers[l]);
    assert Distinct(layers[l]);
  }

  /** Row-major order with a column and a row of space keeps the boxes apart. */
  lemma Apart(p: Placed, q: Placed)
    requires Precedes(p, q)
    requires p.y == PADDING + p.layer * LAYER_GAP_Y && q.y == PADDING + q.layer * LAYER_GAP_Y
    ensures Disjoint(p, q)
  {
  }

  lemma LayersAreFinal(ids: set<Id>, edges: seq<Edge>, waves: seq<seq<Id>>, visited: set<Id>, remaining: seq<Id>)
    requires WavesOf(ids, edges, waves, visited)
    requires Distinct(remaining) && forall id :: id in remaining <==> id in ids && id !in visited
    ensures FinalLayers(ids, edges, |waves|, if remaining == [] then waves else waves + [remaining])
  {
    var arcs := ArcsOf(edges);
    if remaining == [] {
      forall id | id in ids ensures id in Done(ids, arcs, |waves|) {
        assert id !in remaining;
      }
    } else {
      var layers := waves + [remaining];
      assert Elements(layers[|waves|]) == ids - Done(ids, arcs, |waves|);
    }
  }

  /** Some box shows the node that counts for this id, the last one listed. */
  ghost predicate Shown(nodes: seq<Node>, r: seq<Placed>, id: Id) {
    exists p :: p in r && id in NodeIds(nodes) && p.node == NodeMap(nodes)[id]
  }

  /** With no id listed twice: every node once, by depth. */
  ghost predicate ByDepth(nodes: seq<Node>, edges: seq<Edge>, depth: nat, r: seq<Placed>) {
    var ids, arcs := NodeIds(nodes), ArcsOf(edges);
    && IsDepth(Tracked(ids, edges), ids, arcs, depth)
    && (forall p :: p in r ==> LaidOut(ids, arcs, depth, p))
    && (forall n :: n in nodes ==> exists p :: p in r && p.node == n)
    && (forall a, b :: 0 <= a < b < |r| ==> r[a].node.id != r[b].node.id)
  }

  /**
   Shows every id of any graph, on boxes that do not overlap; if no id is listed twice, every node once,
   in the layer of its depth, or below all waves when it has none.
   */
  method ComputeLayout(nodes: seq<Node>, edges: seq<Edge>) returns (r: seq<Placed>, ghost depth: nat)
    ensures forall id :: id in NodeIds(nodes) ==> Shown(nodes, r, id)
    ensures forall p :: p in r ==> p.node in nodes
    ensures forall a, b :: 0 <= a < b < |r| ==> Disjoint(r[a], r[b])
    ensures DistinctIds(nodes) && nodes != [] ==> ByDepth(nodes, edges, depth, r)
  {
    if nodes == [] {
      return [], 0;
    }
    var waves, visited := Layering(nodes, edges);
    depth := |waves|;
    var remaining := Select(nodes, id => id !in visited);
    var layers := if remaining == [] then waves else waves + [remaining];
    var nodeMap := NodeMap(nodes);
    r := Place(nodeMap, layers);
    forall id | id in NodeIds(nodes) ensures Shown(nodes, r, id) {
      var l, i := FindLayer(waves, visited, remaining, layers, id);
      assert PlacedAt(r, layers[l][i], l);
    }
    forall a, b | 0 <= a < b < |r| ensures Disjoint(r[a], r[b]) {
      GridApart(nodeMap, layers, r, a, b);
    }
    if DistinctIds(nodes) {
      LayersAreFinal(NodeIds(nodes), edges, waves, visited, remaining);
      LayoutIsByDepth(nodes, edges, depth, layers, r);
    }
  }

  lemma FindLayer(waves: seq<seq<Id>>, visited: set<Id>, remaining: seq<Id>, layers: seq<seq<Id>>, id: Id)
    returns (l: nat, i: nat)
    requires Collected(waves, visited) && (id in visited || id in remaining)
    requires layers == if remaining == [] then waves else waves + [remaining]
    ensures l < |layers| && i < |layers[l]| && layers[l][i] == id
  {
    if id in visited {
      l :| 0 <= l < |waves| && id in waves[l];
    } else {
      l := |waves|;
    }
    i :| 0 <= i < |layers[l]| && layers[l][i] == id;
  }

  lemma GridApart(nodeMap: map<Id, Node>, layers: seq<seq<Id>>, r: seq<Placed>, a: nat, b: nat)
    requires AllOnGrid(nodeMap, layers, r) && a < b < |r|
    ensures Disjoint(r[a], r[b])
  {
    var p, q := r[a], r[b];
    assert Precedes(p, q) && p in r && q in r;
    var i :| OnGrid(layers, p, i);
    var j :| OnGrid(layers, q, j);
    Apart(p, q);
  }

  lemma LayoutIsByDepth(nodes: seq<Node>, edges: seq<Edge>, depth: nat, layers: seq<seq<Id>>, r: seq<Placed>)
    requires DistinctIds(nodes) && FinalLayers(NodeIds(nodes), edges, depth, layers)
    requires AllOnGrid(NodeMap(nodes), layers, r)
    requires forall id :: id in NodeIds(nodes) ==> Shown(nodes, r, id)
    ensures ByDepth(nodes, edges, depth, r)
  {
    var ids, arcs := NodeIds(nodes), ArcsOf(edges);
    forall p | p in r ensures LaidOut(ids, arcs, depth, p) {
      var slot :| OnGrid(layers, p, slot);
      PlaceIsDepth(ids, edges, depth, layers, p.layer, slot);
    }
    forall n | n in nodes ensures exists p :: p in r && p.node == n {
      assert n.id in ids && NodeMap(nodes)[n.id] == n;
      assert Shown(nodes, r, n.id);
    }
    forall a, b | 0 <= a < b < |r| ensures r[a].node.id != r[b].node.id {
      var p, q := r[a], r[b];
      assert Precedes(p, q) && p in r && q in r;
      var i :| OnGrid(layers, p, i);
      var j :| OnGrid(layers, q, j);
      if p.node.id == q.node.id { OnePlace(ids, edges, depth, layers, p.layer, i, q.layer, j); }
    }
  }

  /** On a workflow the backend accepts, the viewer shows each node in its backend layer. */
  lemma LayoutAgreesWithSort(ids: set<Id>, arcs: Arcs, layers: seq<seq<Id>>, depth: nat, p: Placed)
    requires Sortable(ids, arcs) && Layered(ids, arcs, layers) && LaidOut(ids, arcs, depth, p)
    ensures forall k: nat :: k < |layers| && p.node.id in layers[k] <==> k == p.layer
  {
    var k := p.layer;
    AllDoneIffAcyclic(ids, arcs);
    NoMoreRounds(ids, arcs, |layers|);
    DoneSaturates(ids, arcs, k + 1);
    if |layers| <= k { DoneMonotone(ids, arcs, |layers|, k); }
    assert IsLayer(ids, arcs, k, layers[k]);
    assert p.node.id in Elements(layers[k]);
    LayerIsDepth(ids, arcs, layers, p.node.id);
  }

  /** With known endpoints, the extra layer holds exactly the nodes on or behind a cycle. */
  lemma ExtraLayerIsBehindCycle(ids: set<Id>, arcs: Arcs, depth: nat, p: Placed)
    requires forall a :: a in arcs ==> a.0 in ids && a.1 in ids
    requires LaidOut(ids, arcs, depth, p)
    ensures p.layer == depth <==> BehindCycle(arcs, p.node.id)
  {
    assert Into(ids, arcs) == arcs;
    if p.layer == depth {
      BlockedIsBehindCycle(ids, arcs, p.node.id);
    } else if BehindCycle(arcs, p.node.id) {
      BehindCycleIsBlocked(ids, arcs, p.node.id, p.layer + 1);
    }
  }
}
