/**
 Finite directed graphs as sets of arcs: walks, cycles, and the sets of nodes whose
 longest incoming walk is bounded. Both Kahn layerings and the interface cycle check
 are specified with these.
 */
module Digraph {

  type Id = string
  type Arcs = set<(Id, Id)>

  ghost predicate Walk(arcs: Arcs, p: seq<Id>) {
    p != [] && forall i :: 0 <= i < |p| - 1 ==> (p[i], p[i + 1]) in arcs
  }

  ghost predicate WalkTo(arcs: Arcs, p: seq<Id>, n: Id) {
    Walk(arcs, p) && p[|p| - 1] == n
  }

  ghost predicate Cycle(arcs: Arcs, p: seq<Id>) {
    Walk(arcs, p) && |p| > 1 && p[0] == p[|p| - 1]
  }

  ghost predicate Acyclic(arcs: Arcs) {
    forall p :: !Cycle(arcs, p)
  }

  ghost predicate Reaches(arcs: Arcs, a: Id, b: Id) {
    exists p :: WalkTo(arcs, p, b) && p[0] == a
  }

  /** `n` lies on a cycle or is reached from one. */
  ghost predicate BehindCycle(arcs: Arcs, n: Id) {
    exists c, p :: Cycle(arcs, c) && WalkTo(arcs, p, n) && p[0] == c[0]
  }

  /** The longest walk that ends in `n` has exactly `len` arcs. */
  ghost predicate LongestWalk(arcs: Arcs, n: Id, len: nat) {
    && (exists p :: WalkTo(arcs, p, n) && |p| == len + 1)
    && (forall p :: WalkTo(arcs, p, n) ==> |p| <= len + 1)
  }

  /** Arcs that end in a member of `ids`. */
  function Into(ids: set<Id>, arcs: Arcs): Arcs {
    set a | a in arcs && a.1 in ids
  }

  ghost predicate SourcesKnown(ids: set<Id>, arcs: Arcs) {
    forall a :: a in Into(ids, arcs) ==> a.0 in ids
  }

  /** Every predecessor of `n` is in `done`. */
  ghost predicate Ready(arcs: Arcs, done: set<Id>, n: Id) {
    forall a :: a in arcs && a.1 == n ==> a.0 in done
  }

  /** One round: the nodes of `ids` that are ready once `done` is off the graph. */
  ghost function Round(ids: set<Id>, arcs: Arcs, done: set<Id>): (d: set<Id>)
    ensures d <= ids
  {
    set n | n in ids && Ready(arcs, done, n)
  }

  /** Nodes of `ids` that become ready within `k` rounds. */
  ghost function Done(ids: set<Id>, arcs: Arcs, k: nat): (d: set<Id>)
    ensures d <= ids
  {
    if k == 0 then {} else Round(ids, arcs, Done(ids, arcs, k - 1))
  }

  /** Nodes that become ready in round `k` and not before. */
  ghost function Level(ids: set<Id>, arcs: Arcs, k: nat): set<Id> {
    Done(ids, arcs, k + 1) - Done(ids, arcs, k)
  }

  lemma RoundMonotone(ids: set<Id>, arcs: Arcs, d: set<Id>, e: set<Id>)
    requires d <= e
    ensures Round(ids, arcs, d) <= Round(ids, arcs, e)
  {
    forall n | n in Round(ids, arcs, d) ensures Ready(arcs, e, n) {}
  }

  lemma {:induction false} DoneGrows(ids: set<Id>, arcs: Arcs, k: nat)
    ensures Done(ids, arcs, k) <= Done(ids, arcs, k + 1)
  {
    if k == 0 {
      assert Done(ids, arcs, 0) == {};
    } else {
      DoneGrows(ids, arcs, k - 1);
      RoundMonotone(ids, arcs, Done(ids, arcs, k - 1), Done(ids, arcs, k));
    }
  }

  lemma {:induction false} DoneMonotone(ids: set<Id>, arcs: Arcs, j: nat, k: nat)
    requires j <= k
    ensures Done(ids, arcs, j) <= Done(ids, arcs, k)
    decreases k
  {
    if j == k {
      assert Done(ids, arcs, j) == Done(ids, arcs, k);
    } else {
      DoneMonotone(ids, arcs, j, k - 1);
      DoneGrows(ids, arcs, k - 1);
    }
  }

  /** A round that changes nothing is repeated for ever. */
  lemma {:induction false} Fixpoint(ids: set<Id>, arcs: Arcs, d: set<Id>, j: nat, k: nat)
    requires j <= k && d == Done(ids, arcs, j) && Round(ids, arcs, d) == d
    ensures Done(ids, arcs, k) == d
    decreases k
  {
    if j == k {
      assert Done(ids, arcs, k) == d;
    } else {
      Fixpoint(ids, arcs, d, j, k - 1);
    }
  }

  lemma EmptyRound(ids: set<Id>, arcs: Arcs, j: nat)
    requires Level(ids, arcs, j) == {}
    ensures Round(ids, arcs, Done(ids, arcs, j)) == Done(ids, arcs, j)
  {
    DoneGrows(ids, arcs, j);
    var d, e := Done(ids, arcs, j), Done(ids, arcs, j + 1);
    assert e == d + (e - d);
  }

  /** An empty round is the last one. */
  lemma DoneStable(ids: set<Id>, arcs: Arcs, j: nat, k: nat)
    requires j <= k && Level(ids, arcs, j) == {}
    ensures Done(ids, arcs, k) == Done(ids, arcs, j)
  {
    EmptyRound(ids, arcs, j);
    Fixpoint(ids, arcs, Done(ids, arcs, j), j, k);
  }

  /** `|ids|` rounds are enough: no later round adds a node. */
  lemma DoneSaturates(ids: set<Id>, arcs: Arcs, k: nat)
    ensures Done(ids, arcs, k) <= Done(ids, arcs, |ids|)
  {
    if k <= |ids| {
      DoneMonotone(ids, arcs, k, |ids|);
    } else {
      GrowsOrStops(ids, arcs, |ids| + 1);
      SubsetSize(Done(ids, arcs, |ids| + 1), ids);
      var j :| 0 <= j <= |ids| && Level(ids, arcs, j) == {};
      DoneStable(ids, arcs, j, k);
      DoneStable(ids, arcs, j, |ids|);
    }
  }

  lemma LevelSettles(ids: set<Id>, arcs: Arcs, n: Id, i: nat)
    requires n in Level(ids, arcs, i)
    ensures n in Done(ids, arcs, |ids|)
  {
    DoneSaturates(ids, arcs, i + 1);
  }

  lemma OneLevel(ids: set<Id>, arcs: Arcs, n: Id, i: nat, j: nat)
    requires n in Level(ids, arcs, i) && n in Level(ids, arcs, j) && i <= j
    ensures i == j
  {
    if i < j { DoneMonotone(ids, arcs, i + 1, j); }
  }

  /** Each non-empty round adds a node. */
  lemma {:induction false} GrowsOrStops(ids: set<Id>, arcs: Arcs, k: nat)
    ensures |Done(ids, arcs, k)| >= k || exists j :: 0 <= j < k && Level(ids, arcs, j) == {}
  {
    if k == 0 {
    } else {
      GrowsOrStops(ids, arcs, k - 1);
      if |Done(ids, arcs, k - 1)| >= k - 1 && Level(ids, arcs, k - 1) != {} {
        var x :| x in Level(ids, arcs, k - 1);
        DoneGrows(ids, arcs, k - 1);
        SubsetSize(Done(ids, arcs, k - 1) + {x}, Done(ids, arcs, k));
      }
    }
  }

  lemma {:induction false} SubsetSize<T>(a: set<T>, b: set<T>)
    requires a <= b
    ensures |a| <= |b|
    ensures |a| == |b| ==> a == b
  {
    assert |b| == |a| + |b - a| by { assert b == a + (b - a); }
    assert a + (b - a) == b;
  }

  /** Walks into `Done(k)` have at most `k` nodes, all of them known. */
  lemma {:induction false} DoneBoundsWalks(ids: set<Id>, arcs: Arcs, k: nat, p: seq<Id>)
    requires Walk(arcs, p) && p[|p| - 1] in Done(ids, arcs, k)
    ensures |p| <= k
    ensures forall x :: x in p ==> x in ids
  {
    var n := p[|p| - 1];
    if |p| > 1 {
      var q := p[..|p| - 1];
      assert (q[|q| - 1], n) in arcs;
      DoneBoundsWalks(ids, arcs, k - 1, q);
    }
    assert p == p[..|p| - 1] + [n];
  }

  /** A known node outside `Done(k)` ends a walk of `k + 1` known nodes. */
  lemma {:induction false} LongWalk(ids: set<Id>, arcs: Arcs, k: nat, n: Id) returns (p: seq<Id>)
    requires SourcesKnown(ids, arcs)
    requires n in ids && n !in Done(ids, arcs, k)
    ensures WalkTo(arcs, p, n) && |p| == k + 1
    ensures forall x :: x in p ==> x in ids
  {
    if k == 0 {
      p := [n];
    } else {
      var a :| a in arcs && a.1 == n && a.0 !in Done(ids, arcs, k - 1);
      assert a in Into(ids, arcs);
      var q := LongWalk(ids, arcs, k - 1, a.0);
      p := q + [n];
      assert (q[|q| - 1], n) in arcs;
    }
  }

  /** A member of level `k` has longest incoming walk `k`. */
  lemma LevelIsLongestWalk(ids: set<Id>, arcs: Arcs, k: nat, n: Id)
    requires SourcesKnown(ids, arcs)
    requires n in Level(ids, arcs, k)
    ensures LongestWalk(arcs, n, k)
  {
    var p := LongWalk(ids, arcs, k, n);
    forall q | WalkTo(arcs, q, n) ensures |q| <= k + 1 {
      DoneBoundsWalks(ids, arcs, k + 1, q);
    }
  }

  /** More positions than values: two positions agree. */
  lemma {:induction false} Pigeonhole(s: seq<Id>, values: set<Id>) returns (i: nat, j: nat)
    requires |s| > |values| && forall x :: x in s ==> x in values
    ensures i < j < |s| && s[i] == s[j]
  {
    var last := s[|s| - 1];
    var front := s[..|s| - 1];
    assert last in s;
    if last in front {
      i :| 0 <= i < |front| && front[i] == last;
      j := |s| - 1;
    } else {
      i, j := Pigeonhole(front, values - {last});
    }
  }

  /** With known sources, whatever never becomes ready sits behind a cycle. */
  lemma BlockedIsBehindCycle(ids: set<Id>, arcs: Arcs, n: Id)
    requires SourcesKnown(ids, arcs)
    requires n in ids && n !in Done(ids, arcs, |ids|)
    ensures BehindCycle(Into(ids, arcs), n)
  {
    var p := LongWalk(ids, arcs, |ids|, n);
    var i, j := Pigeonhole(p, ids);
    var c := p[i..j + 1];
    var q := p[i..];
    var into := Into(ids, arcs);
    forall k | 0 <= k < |p| - 1 ensures (p[k], p[k + 1]) in into {
      assert p[k + 1] in p;
    }
    forall k | 0 <= k < |c| - 1 ensures (c[k], c[k + 1]) in into {
      assert c[k] == p[i + k] && c[k + 1] == p[i + k + 1];
    }
    forall k | 0 <= k < |q| - 1 ensures (q[k], q[k + 1]) in into {
      assert q[k] == p[i + k] && q[k + 1] == p[i + k + 1];
    }
    assert Cycle(into, c);
    assert WalkTo(into, q, n) && q[0] == c[0];
  }

  /** Going round a cycle `k` times gives arbitrarily long walks to its start. */
  lemma {:induction false} Unwind(arcs: Arcs, c: seq<Id>, k: nat) returns (p: seq<Id>)
    requires Cycle(arcs, c)
    ensures WalkTo(arcs, p, c[0]) && |p| > k
  {
    if k == 0 {
      p := [c[0]];
    } else {
      var q := Unwind(arcs, c, k - 1);
      p := q + c[1..];
      forall i | 0 <= i < |p| - 1 ensures (p[i], p[i + 1]) in arcs {
        if i >= |q| - 1 {
          assert p[i + 1] == c[i + 1 - |q| + 1];
          assert p[i] == c[i - |q| + 1];
        }
      }
    }
  }

  lemma BehindCycleIsBlocked(ids: set<Id>, arcs: Arcs, n: Id, k: nat)
    requires BehindCycle(arcs, n)
    ensures n !in Done(ids, arcs, k)
  {
    if n in Done(ids, arcs, k) {
      var c, p :| Cycle(arcs, c) && WalkTo(arcs, p, n) && p[0] == c[0];
      var u := Unwind(arcs, c, k);
      var q := u + p[1..];
      forall i | 0 <= i < |q| - 1 ensures (q[i], q[i + 1]) in arcs {
        if i >= |u| - 1 {
          assert q[i + 1] == p[i + 1 - |u| + 1];
          assert q[i] == p[i - |u| + 1];
        }
      }
      DoneBoundsWalks(ids, arcs, k, q);
    }
  }

  /** Rounds of readiness only look at arcs into known nodes. */
  lemma {:induction false} DoneIgnoresUnknownTargets(ids: set<Id>, arcs: Arcs, k: nat)
    ensures Done(ids, Into(ids, arcs), k) == Done(ids, arcs, k)
  {
    if k == 0 {
    } else {
      DoneIgnoresUnknownTargets(ids, arcs, k - 1);
      forall n | n in ids
        ensures Ready(arcs, Done(ids, arcs, k - 1), n) == Ready(Into(ids, arcs), Done(ids, arcs, k - 1), n)
      {
        assert forall a :: a in Into(ids, arcs) ==> a in arcs;
        assert forall a :: a in arcs && a.1 == n ==> a in Into(ids, arcs);
      }
    }
  }

  /** Every node becomes ready exactly when arcs into the graph stay inside it and form no cycle. */
  lemma AllDoneIffAcyclic(ids: set<Id>, arcs: Arcs)
    ensures Done(ids, arcs, |ids|) == ids
       <==> SourcesKnown(ids, arcs) && Acyclic(Into(ids, arcs))
  {
    var into := Into(ids, arcs);
    var k := |ids|;
    DoneIgnoresUnknownTargets(ids, arcs, k);
    if Done(ids, arcs, k) == ids {
      forall a | a in into ensures a.0 in ids {
        assert Walk(arcs, [a.0, a.1]);
        DoneBoundsWalks(ids, arcs, k, [a.0, a.1]);
        assert a.0 in [a.0, a.1];
      }
      forall p ensures !Cycle(into, p) {
        if Cycle(into, p) {
          assert (p[|p| - 2], p[|p| - 1]) in into;
          assert WalkTo(into, [p[0]], p[0]);
          assert BehindCycle(into, p[0]);
          BehindCycleIsBlocked(ids, into, p[0], k);
        }
      }
    } else if SourcesKnown(ids, arcs) && Acyclic(into) {
      var n :| n in ids && n !in Done(ids, arcs, k);
      BlockedIsBehindCycle(ids, arcs, n);
    }
  }
}
