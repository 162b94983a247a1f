/**
 Deciding the nodes of a graph batch by batch, where a node's decision looks at the decisions
 made so far. If it only looks at ancestors, every schedule decides the same.
 */
module Scheduling {
  import opened Ordering
  import opened Digraph
  import opened WorkflowModel

  type Decider<!O> = (Id, map<Id, O>) -> O

  /** The decisions after one more batch, all made against the decisions from before it. */
  function DecideBatch<O>(batch: seq<Id>, before: map<Id, O>, decide: Decider<O>): map<Id, O> {
    before + map n | n in batch :: decide(n, before)
  }

  function DecideAll<O>(batches: seq<seq<Id>>, decide: Decider<O>): map<Id, O> {
    if batches == [] then map[]
    else DecideBatch(batches[|batches| - 1], DecideAll(batches[..|batches| - 1], decide), decide)
  }

  /** The reference: one node at a time. */
  function DecideInOrder<O>(order: seq<Id>, decide: Decider<O>): map<Id, O> {
    if order == [] then map[]
    else
      var before := DecideInOrder(order[..|order| - 1], decide);
      before[order[|order| - 1] := decide(order[|order| - 1], before)]
  }

  /** Node `n` sits in batch `i`. */
  ghost predicate InBatch(batches: seq<seq<Id>>, n: Id, i: int) {
    0 <= i < |batches| && n in batches[i]
  }

  /** Every node once, and every edge from an earlier batch to a later one. */
  ghost predicate Schedule(ids: set<Id>, arcs: Arcs, batches: seq<seq<Id>>) {
    && (forall n, i :: InBatch(batches, n, i) ==> n in ids)
    && (forall n :: n in ids ==> exists i :: InBatch(batches, n, i))
    && (forall n, i, j :: InBatch(batches, n, i) && InBatch(batches, n, j) ==> i == j)
    && (forall i :: 0 <= i < |batches| ==> Distinct(batches[i]))
    && SourcesKnown(ids, arcs)
    && (forall a, i, j :: a in arcs && InBatch(batches, a.0, i) && InBatch(batches, a.1, j) ==> i < j)
  }

  ghost predicate Ancestor(arcs: Arcs, m: Id, n: Id) {
    exists p :: WalkTo(arcs, p, n) && p[0] == m && |p| > 1
  }

  ghost predicate SameAt<O>(v: map<Id, O>, w: map<Id, O>, m: Id) {
    m in v && m in w && v[m] == w[m]
  }

  ghost predicate Comparable(arcs: Arcs, m: Id, n: Id) {
    m == n || Ancestor(arcs, m, n) || Ancestor(arcs, n, m)
  }

  /** Neither `n` nor anything that depends on it has been decided. */
  ghost predicate Ahead<O>(arcs: Arcs, v: map<Id, O>, n: Id) {
    forall m :: m in v ==> m != n && !Ancestor(arcs, n, m)
  }

  /** When its turn comes, a node's decision only looks at the inputs and its ancestors. */
  ghost predicate Local<O(!new)>(ids: set<Id>, arcs: Arcs, decide: Decider<O>) {
    forall n: Id, v: map<Id, O>, w: map<Id, O> ::
      n in ids && v.Keys <= ids && w.Keys <= ids && Ahead(arcs, v, n) && Ahead(arcs, w, n)
      && (forall m :: m in ids && Ancestor(arcs, m, n) ==> SameAt(v, w, m))
      ==> decide(n, v) == decide(n, w)
  }

  /** Ancestors are always in earlier batches. */
  lemma {:induction false} WalkGoesForward(ids: set<Id>, arcs: Arcs, batches: seq<seq<Id>>, p: seq<Id>, j: int)
    requires Schedule(ids, arcs, batches) && Walk(arcs, p) && |p| > 1
    requires InBatch(batches, p[|p| - 1], j)
    ensures p[0] in ids && forall i :: InBatch(batches, p[0], i) ==> i < j
  {
    var a := (p[|p| - 2], p[|p| - 1]);
    assert a in arcs && a in Into(ids, arcs);
    var k :| InBatch(batches, a.0, k);
    assert k < j;
    if |p| > 2 {
      WalkGoesForward(ids, arcs, batches, p[..|p| - 1], k);
    }
  }

  lemma AncestorIsEarlier(ids: set<Id>, arcs: Arcs, batches: seq<seq<Id>>, m: Id, n: Id, j: int)
    requires Schedule(ids, arcs, batches) && InBatch(batches, n, j) && Ancestor(arcs, m, n)
    ensures exists i :: InBatch(batches, m, i) && i < j
  {
    var p :| WalkTo(arcs, p, n) && p[0] == m && |p| > 1;
    WalkGoesForward(ids, arcs, batches, p, j);
    var i :| InBatch(batches, m, i);
  }

  lemma DecideNext<O>(batches: seq<seq<Id>>, decide: Decider<O>, k: nat)
    requires k < |batches|
    ensures DecideAll(batches[..k + 1], decide) == DecideBatch(batches[k], DecideAll(batches[..k], decide), decide)
  {
    assert batches[..k + 1][..k] == batches[..k];
  }

  /** Node `n` is decided in its own batch, against everything before it, and later batches leave it alone. */
  lemma {:induction false} DecidePrefix<O>(ids: set<Id>, arcs: Arcs, batches: seq<seq<Id>>, decide: Decider<O>,
                                           k: nat, n: Id, i: int)
    requires Schedule(ids, arcs, batches) && k <= |batches| && InBatch(batches, n, i)
    ensures n in DecideAll(batches[..k], decide) <==> i < k
    ensures i < k ==> DecideAll(batches[..k], decide)[n] == decide(n, DecideAll(batches[..i], decide))
  {
    if k == 0 {
    } else {
      DecidePrefix(ids, arcs, batches, decide, k - 1, n, i);
      DecideNext(batches, decide, k - 1);
      assert n in batches[k - 1] <==> InBatch(batches, n, k - 1);
      assert InBatch(batches, n, k - 1) <==> i == k - 1;
    }
  }

  ghost predicate Extends<O>(v: map<Id, O>, w: map<Id, O>) {
    forall n :: n in v ==> SameAt(v, w, n)
  }

  /** Decisions are final. */
  lemma {:induction false} DecisionsStay<O>(ids: set<Id>, arcs: Arcs, batches: seq<seq<Id>>, decide: Decider<O>, k: nat)
    requires Schedule(ids, arcs, batches) && k <= |batches|
    ensures Extends(DecideAll(batches[..k], decide), DecideAll(batches, decide))
  {
    assert batches[..|batches|] == batches;
    var before := DecideAll(batches[..k], decide);
    var front := batches[..k];
    assert forall n, i :: InBatch(front, n, i) ==> InBatch(batches, n, i);
    DecidesOnlyNodes(ids, front, decide);
    forall n | n in before ensures SameAt(before, DecideAll(batches, decide), n) {
      var i :| InBatch(batches, n, i);
      DecidePrefix(ids, arcs, batches, decide, k, n, i);
      DecidePrefix(ids, arcs, batches, decide, |batches|, n, i);
    }
  }

  lemma {:induction false} DecidesOnlyNodes<O>(ids: set<Id>, batches: seq<seq<Id>>, decide: Decider<O>)
    requires forall n, i :: InBatch(batches, n, i) ==> n in ids
    ensures DecideAll(batches, decide).Keys <= ids
  {
    if batches == [] {
    } else {
      var front := batches[..|batches| - 1];
      assert forall n, i :: InBatch(front, n, i) ==> InBatch(batches, n, i);
      DecidesOnlyNodes(ids, front, decide);
      forall n | n in batches[|batches| - 1] ensures n in ids {
        assert InBatch(batches, n, |batches| - 1);
      }
    }
  }

  /** What the ancestors of a node decided. */
  ghost function Above<O>(arcs: Arcs, val: map<Id, O>, n: Id): map<Id, O> {
    map m | m in val && Ancestor(arcs, m, n) :: val[m]
  }

  /** Decisions in which every node's outcome follows from those of its ancestors. */
  ghost predicate Solves<O>(ids: set<Id>, arcs: Arcs, val: map<Id, O>, decide: Decider<O>) {
    val.Keys == ids && forall n :: n in ids ==> val[n] == decide(n, Above(arcs, val, n))
  }

  /** What was decided before batch `j` is ahead of every node in it. */
  lemma EarlierIsAhead<O>(ids: set<Id>, arcs: Arcs, batches: seq<seq<Id>>, decide: Decider<O>, n: Id, j: int)
    requires Schedule(ids, arcs, batches) && InBatch(batches, n, j)
    ensures DecideAll(batches[..j], decide).Keys <= ids
    ensures Ahead(arcs, DecideAll(batches[..j], decide), n)
  {
    var before := DecideAll(batches[..j], decide);
    assert forall m, i :: InBatch(batches[..j], m, i) ==> InBatch(batches, m, i);
    DecidesOnlyNodes(ids, batches[..j], decide);
    forall m | m in before ensures m != n && !Ancestor(arcs, n, m) {
      var i :| InBatch(batches, m, i);
      DecidePrefix(ids, arcs, batches, decide, j, m, i);
      if Ancestor(arcs, n, m) { AncestorIsEarlier(ids, arcs, batches, n, m, i); }
    }
  }

  /** No ancestor of a node depends on it. */
  lemma AboveIsAhead<O>(ids: set<Id>, arcs: Arcs, batches: seq<seq<Id>>, val: map<Id, O>, n: Id, j: int)
    requires Schedule(ids, arcs, batches) && InBatch(batches, n, j)
    ensures Ahead(arcs, Above(arcs, val, n), n)
  {
    forall m | m in Above(arcs, val, n) ensures m != n && !Ancestor(arcs, n, m) {
      AncestorIsEarlier(ids, arcs, batches, m, n, j);
      var i :| InBatch(batches, m, i) && i < j;
      if Ancestor(arcs, n, m) { AncestorIsEarlier(ids, arcs, batches, n, m, i); }
    }
  }

  lemma {:induction false} ScheduleSolves<O(!new)>(ids: set<Id>, arcs: Arcs, batches: seq<seq<Id>>,
                                                   decide: Decider<O>)
    requires Schedule(ids, arcs, batches) && Local(ids, arcs, decide)
    ensures Solves(ids, arcs, DecideAll(batches, decide), decide)
  {
    var val := DecideAll(batches, decide);
    assert batches[..|batches|] == batches;
    DecidesOnlyNodes(ids, batches, decide);
    forall n | n in ids ensures n in val && val[n] == decide(n, Above(arcs, val, n)) {
      var j :| InBatch(batches, n, j);
      var before := DecideAll(batches[..j], decide);
      DecidePrefix(ids, arcs, batches, decide, |batches|, n, j);
      EarlierIsAhead(ids, arcs, batches, decide, n, j);
      AboveIsAhead(ids, arcs, batches, val, n, j);
      forall m | m in ids && Ancestor(arcs, m, n) ensures SameAt(before, Above(arcs, val, n), m) {
        AncestorIsEarlier(ids, arcs, batches, m, n, j);
        var i :| InBatch(batches, m, i) && i < j;
        DecidePrefix(ids, arcs, batches, decide, j, m, i);
        DecidePrefix(ids, arcs, batches, decide, |batches|, m, i);
      }
    }
  }

  lemma {:induction false} SolutionsAgreeUpTo<O>(ids: set<Id>, arcs: Arcs, batches: seq<seq<Id>>, decide: Decider<O>,
                                                 v: map<Id, O>, w: map<Id, O>, k: nat)
    requires Schedule(ids, arcs, batches) && k <= |batches|
    requires Solves(ids, arcs, v, decide) && Solves(ids, arcs, w, decide)
    ensures forall n, i :: InBatch(batches, n, i) && i < k ==> SameAt(v, w, n)
  {
    if k == 0 {
    } else {
      SolutionsAgreeUpTo(ids, arcs, batches, decide, v, w, k - 1);
      forall n, i | InBatch(batches, n, i) && i < k ensures SameAt(v, w, n) {
        if i == k - 1 {
          forall m | m in ids && Ancestor(arcs, m, n) ensures SameAt(v, w, m) {
            AncestorIsEarlier(ids, arcs, batches, m, n, i);
          }
          assert Above(arcs, v, n) == Above(arcs, w, n);
        }
      }
    }
  }

  /** All schedules decide every node the same way. */
  lemma SchedulesAgree<O(!new)>(ids: set<Id>, arcs: Arcs, s: seq<seq<Id>>, t: seq<seq<Id>>, decide: Decider<O>)
    requires Schedule(ids, arcs, s) && Schedule(ids, arcs, t) && Local(ids, arcs, decide)
    ensures DecideAll(s, decide) == DecideAll(t, decide)
  {
    var v, w := DecideAll(s, decide), DecideAll(t, decide);
    ScheduleSolves(ids, arcs, s, decide);
    ScheduleSolves(ids, arcs, t, decide);
    SolutionsAgreeUpTo(ids, arcs, s, decide, v, w, |s|);
    forall n | n in ids ensures v[n] == w[n] {
      var i :| InBatch(s, n, i);
      assert SameAt(v, w, n);
    }
  }

  // ── Orders of nodes ──

  function Flatten(batches: seq<seq<Id>>): seq<Id> {
    if batches == [] then [] else Flatten(batches[..|batches| - 1]) + batches[|batches| - 1]
  }

  function Singletons(order: seq<Id>): seq<seq<Id>> {
    seq(|order|, i requires 0 <= i < |order| => [order[i]])
  }

  ghost predicate TopologicalOrder(ids: set<Id>, arcs: Arcs, order: seq<Id>) {
    && Distinct(order) && Elements(order) == ids
    && SourcesKnown(ids, arcs)
    && forall i, j :: 0 <= i < |order| && 0 <= j < |order| && (order[i], order[j]) in arcs ==> i < j
  }

  lemma SingletonsSplit(order: seq<Id>)
    requires order != []
    ensures Singletons(order)[..|order| - 1] == Singletons(order[..|order| - 1])
    ensures Singletons(order)[|order| - 1] == [order[|order| - 1]]
  {
  }

  lemma SingletonBatch<O>(before: map<Id, O>, n: Id, decide: Decider<O>)
    ensures DecideBatch([n], before, decide) == before[n := decide(n, before)]
  {
  }

  lemma {:induction false} SingletonsDecideInOrder<O>(order: seq<Id>, decide: Decider<O>)
    ensures DecideAll(Singletons(order), decide) == DecideInOrder(order, decide)
  {
    if order == [] {
    } else {
      var front := order[..|order| - 1];
      SingletonsSplit(order);
      SingletonsDecideInOrder(front, decide);
      SingletonBatch(DecideInOrder(front, decide), order[|order| - 1], decide);
    }
  }

  lemma {:induction false} SingletonsFlatten(order: seq<Id>)
    ensures Flatten(Singletons(order)) == order
  {
    if order == [] {
    } else {
      SingletonsSplit(order);
      SingletonsFlatten(order[..|order| - 1]);
    }
  }

  lemma OrderIsSchedule(ids: set<Id>, arcs: Arcs, order: seq<Id>)
    requires TopologicalOrder(ids, arcs, order)
    ensures Schedule(ids, arcs, Singletons(order))
  {
    var batches := Singletons(order);
    forall n, i | InBatch(batches, n, i) ensures n in ids {
      assert order[i] in Elements(order);
    }
    forall n | n in ids ensures exists i :: InBatch(batches, n, i) {
      assert n in Elements(order);
      var i :| 0 <= i < |order| && order[i] == n;
      assert InBatch(batches, n, i);
    }
    forall a, i, j | a in arcs && InBatch(batches, a.0, i) && InBatch(batches, a.1, j) ensures i < j {
      assert (order[i], order[j]) == a;
    }
  }

  lemma DistinctConcat<T>(s: seq<T>, t: seq<T>)
    requires Distinct(s) && Distinct(t) && forall x :: x in s ==> x !in t
    ensures Distinct(s + t)
  {
    forall i, j | 0 <= i < |s| <= j < |s + t| ensures (s + t)[i] != (s + t)[j] {
      assert (s + t)[i] in s && (s + t)[j] == t[j - |s|];
    }
  }

  lemma {:induction false} FlattenFacts(batches: seq<seq<Id>>)
    requires forall n, i, j :: InBatch(batches, n, i) && InBatch(batches, n, j) ==> i == j
    requires forall i :: 0 <= i < |batches| ==> Distinct(batches[i])
    ensures Distinct(Flatten(batches))
    ensures forall n :: n in Flatten(batches) <==> exists i :: InBatch(batches, n, i)
  {
    if batches == [] {
    } else {
      var front, last := batches[..|batches| - 1], batches[|batches| - 1];
      assert forall n, i :: InBatch(front, n, i) ==> InBatch(batches, n, i);
      FlattenFacts(front);
      forall n ensures n in Flatten(batches) <==> exists i :: InBatch(batches, n, i) {
        assert n in last ==> InBatch(batches, n, |batches| - 1);
        if i :| InBatch(batches, n, i) && i < |batches| - 1 { assert InBatch(front, n, i); }
      }
      forall n | n in Flatten(front) ensures n !in last {
        var i :| InBatch(front, n, i);
        assert n in last ==> InBatch(batches, n, |batches| - 1);
      }
      DistinctConcat(Flatten(front), last);
    }
  }
}
