/** When the schedule of a workflow matters: nodes that read incomparable nodes, and orders that tell. */
module ScheduleDependence {
  import opened Ordering
  import opened Digraph
  import opened WorkflowModel
  import opened Text
  import opened Values
  import opened Conditions
  import opened Scheduling
  import opened WorkflowEngine

  // ── Orders of an acyclic graph ──

  /** Every node once, and behind all its predecessors. */
  ghost predicate Closed(arcs: Arcs, order: seq<Id>) {
    && Distinct(order)
    && forall j, x :: 0 <= j < |order| && (x, order[j]) in arcs ==> x in order[..j]
  }

  lemma ClosedAppend(arcs: Arcs, order: seq<Id>, n: Id)
    requires Closed(arcs, order) && n !in order && forall x :: (x, n) in arcs ==> x in order
    ensures Closed(arcs, order + [n]) && Elements(order + [n]) == Elements(order) + {n}
  {
    var all := order + [n];
    forall j, x | 0 <= j < |all| && (x, all[j]) in arcs ensures x in all[..j] {
      assert all[..j] == order[..j];
      assert order[..|order|] == order;
    }
    ElementsAppend(order, n);
  }

  /** Nodes whose predecessors are all listed can be appended, in any sequence. */
  lemma {:induction false} AppendAll(arcs: Arcs, order: seq<Id>, more: set<Id>) returns (longer: seq<Id>)
    requires Closed(arcs, order) && more !! Elements(order)
    requires forall n, x :: n in more && (x, n) in arcs ==> x in Elements(order)
    ensures Closed(arcs, longer) && Elements(longer) == Elements(order) + more && order <= longer
    decreases more
  {
    if more == {} {
      longer := order;
    } else {
      var n :| n in more;
      ClosedAppend(arcs, order, n);
      longer := AppendAll(arcs, order + [n], more - {n});
    }
  }

  ghost predicate DownClosed(ids: set<Id>, arcs: Arcs, s: set<Id>) {
    s <= ids && forall a :: a in arcs && a.1 in s ==> a.0 in s
  }

  /** An order can be continued, round by round, to all nodes of a larger down-closed set. */
  lemma {:induction false} Fill(ids: set<Id>, arcs: Arcs, start: seq<Id>, s: set<Id>, k: nat)
    returns (order: seq<Id>)
    requires Closed(arcs, start) && DownClosed(ids, arcs, s) && Elements(start) <= s
    ensures Closed(arcs, order) && Elements(order) == Elements(start) + (Done(ids, arcs, k) * s) && start <= order
  {
    if k == 0 {
      order := start;
    } else {
      var before := Fill(ids, arcs, start, s, k - 1);
      var more := Done(ids, arcs, k) * s - Elements(before);
      forall n, x | n in more && (x, n) in arcs ensures x in Elements(before) {
        assert Ready(arcs, Done(ids, arcs, k - 1), n);
        assert (x, n).0 in Done(ids, arcs, k - 1);
      }
      DoneGrows(ids, arcs, k - 1);
      order := AppendAll(arcs, before, more);
    }
  }

  /** `a` and its ancestors. */
  ghost function Upward(ids: set<Id>, arcs: Arcs, a: Id): set<Id> {
    set x | x in ids && (x == a || Ancestor(arcs, x, a))
  }

  lemma StepUp(arcs: Arcs, x: Id, y: Id, a: Id)
    requires (x, y) in arcs && (y == a || Ancestor(arcs, y, a))
    ensures Ancestor(arcs, x, a)
  {
    var p: seq<Id> := [y];
    if y != a {
      p :| WalkTo(arcs, p, a) && p[0] == y && |p| > 1;
    }
    var q := [x] + p;
    forall i | 0 <= i < |q| - 1 ensures (q[i], q[i + 1]) in arcs {
      if i > 0 { assert q[i] == p[i - 1] && q[i + 1] == p[i]; }
    }
    assert WalkTo(arcs, q, a) && q[0] == x;
  }

  lemma UpwardIsDownClosed(ids: set<Id>, arcs: Arcs, a: Id)
    requires forall e :: e in arcs && e.1 in ids ==> e.0 in ids
    ensures DownClosed(ids, arcs, Upward(ids, arcs, a))
  {
    forall e | e in arcs && e.1 in Upward(ids, arcs, a) ensures e.0 in Upward(ids, arcs, a) {
      StepUp(arcs, e.0, e.1, a);
    }
  }

  /** A topological order in which `a` comes before `b`, if `b` is not above `a`. */
  lemma OrderWithFirst(ids: set<Id>, arcs: Arcs, a: Id, b: Id) returns (order: seq<Id>, i: nat, j: nat)
    requires TopologicalSort.Sortable(ids, arcs) && a in ids && b in ids && a != b && !Ancestor(arcs, b, a)
    ensures TopologicalOrder(ids, arcs, order)
    ensures i < j < |order| && order[i] == a && order[j] == b
  {
    var k, up := |ids|, Upward(ids, arcs, a);
    AllDoneIffAcyclic(ids, arcs);
    SourcesOf(ids, arcs);
    UpwardIsDownClosed(ids, arcs, a);
    var start: seq<Id> := [];
    assert Elements(start) == {};
    var first := Fill(ids, arcs, start, up, k);
    assert Elements(first) == up;
    order := Fill(ids, arcs, first, ids, k);
    assert Elements(order) == ids;
    assert a in Elements(first) && b !in Elements(first) && b in Elements(order);
    i :| 0 <= i < |first| && first[i] == a;
    j :| 0 <= j < |order| && order[j] == b;
    assert forall q :: 0 <= q < |first| ==> order[q] == first[q] && first[q] in Elements(first);
    ClosedIsTopological(ids, arcs, order);
  }

  lemma SourcesOf(ids: set<Id>, arcs: Arcs)
    requires SourcesKnown(ids, arcs)
    ensures forall e :: e in arcs && e.1 in ids ==> e.0 in ids
  {
    forall e | e in arcs && e.1 in ids ensures e.0 in ids {
      assert e in Into(ids, arcs);
    }
  }

  lemma ClosedIsTopological(ids: set<Id>, arcs: Arcs, order: seq<Id>)
    requires Closed(arcs, order) && Elements(order) == ids && SourcesKnown(ids, arcs)
    ensures TopologicalOrder(ids, arcs, order)
  {
    forall i, j | 0 <= i < |order| && 0 <= j < |order| && (order[i], order[j]) in arcs ensures i < j {
      var k :| 0 <= k < j && order[k] == order[i];
      assert k == i;
    }
  }

  // ── The default stub ──

  /** Paths to a node's whole output, its id, or its inputs: present as soon as the node has run. */
  predicate Shown(path: string) {
    var rest := Split(path, '.')[1..];
    rest == [] || rest == ["node_id"] || rest == ["inputs"]
  }

  /** Unconditional edges, and capability nodes that echo inputs mapped from shown paths. */
  ghost predicate Echoing(run: Run) {
    && (forall e :: e in run.edges ==> e.condition == "")
    && run.host.executor == None && INPUTS !in run.nodes
    && forall n :: n in run.nodes ==>
         run.nodes[n].id == n && run.nodes[n].kind == Capability
         && forall p :: p in run.nodes[n].mappings && run.nodes[n].mappings[p].Str? ==>
              Shown(run.nodes[n].mappings[p].s)
  }

  function Echo(run: Run, n: Id, before: Valuation): Row
    requires n in run.nodes
  {
    ResolveInputs(run.nodes[n].mappings, ContextOf(before, run.inputs)[INPUTS := Dict(run.inputs)])
  }

  lemma EchoOutcome(run: Run, n: Id, before: Valuation)
    requires Echoing(run) && n in run.nodes
    ensures OutcomeAfter(run, n, before)
         == Succeeded(Dict(map["node_id" := Str(n), "inputs" := Dict(Echo(run, n, before))]))
  {
    var context := ContextOf(before, run.inputs);
    forall i: nat | i < |run.edges| ensures ConditionAt(n, run.edges, i, context, run.host) == Some(true) {
      assert run.edges[i] in run.edges;
    }
    RunsWhenConditionsHold(n, run.edges, context, run.host);
  }

  /** A shown path is not null on an echoed output, and null where there is none. */
  lemma ShownIsSeen(path: string, n: Id, inputs: Row)
    requires Shown(path)
    ensures var rest := Split(path, '.')[1..];
            && Descend(Dict(map["node_id" := Str(n), "inputs" := Dict(inputs)]), rest) != Null
            && Descend(Null, rest) == Null
  {
    var rest := Split(path, '.')[1..];
    var output := Dict(map["node_id" := Str(n), "inputs" := Dict(inputs)]);
    if rest != [] {
      assert rest[1..] == [];
      assert Descend(output, rest) == Descend(Get(output.fields, rest[0]), []);
    }
  }

  /** What a mapping of a node resolves to, as seen from its path's root. */
  lemma EchoInput(run: Run, n: Id, p: string, before: Valuation)
    requires n in run.nodes && p in run.nodes[n].mappings && run.nodes[n].mappings[p].Str?
    requires Root(run.nodes[n].mappings[p].s) != INPUTS
    ensures var path := run.nodes[n].mappings[p].s;
            p in Echo(run, n, before)
            && Echo(run, n, before)[p]
               == Descend(Get(ContextOf(before, run.inputs), Root(path)), Split(path, '.')[1..])
  {
    var path := run.nodes[n].mappings[p].s;
    var context := ContextOf(before, run.inputs)[INPUTS := Dict(run.inputs)];
    assert Resolve(path, context) == Descend(Get(context, Root(path)), Split(path, '.')[1..]);
  }

  /** A node shows whether the node it reads has been decided before it. */
  lemma EchoTells(run: Run, n: Id, m: Id, p: string, seen: Valuation, unseen: Valuation, v: Valuation)
    requires Echoing(run) && n in run.nodes && m in run.nodes
    requires p in run.nodes[n].mappings && run.nodes[n].mappings[p].Str? && Root(run.nodes[n].mappings[p].s) == m
    requires m !in unseen && m in seen && seen[m] == OutcomeAfter(run, m, v)
    ensures OutcomeAfter(run, n, seen) != OutcomeAfter(run, n, unseen)
  {
    EchoOutcome(run, m, v);
    EchoOutcome(run, n, seen);
    EchoOutcome(run, n, unseen);
    EchoInput(run, n, p, seen);
    EchoInput(run, n, p, unseen);
    ShownIsSeen(run.nodes[n].mappings[p].s, m, Echo(run, m, v));
    assert Get(ContextOf(unseen, run.inputs), m) == Null;
    assert Get(ContextOf(seen, run.inputs), m) == seen[m].value;
    var l, r := OutcomeAfter(run, n, seen).value, OutcomeAfter(run, n, unseen).value;
    assert l.fields["inputs"] == Dict(Echo(run, n, seen)) && r.fields["inputs"] == Dict(Echo(run, n, unseen));
  }

  // ── Exactly when schedules agree ──

  ghost predicate AllSchedulesAgree(run: Run) {
    forall s, t :: Schedule(run.nodes.Keys, ArcsOf(run.edges), s) && Schedule(run.nodes.Keys, ArcsOf(run.edges), t)
      ==> DecideAll(s, DeciderOf(run)) == DecideAll(t, DeciderOf(run))
  }

  /** In an order, a node is decided against exactly the nodes in front of it. */
  lemma DecidedInOrder(run: Run, order: seq<Id>, i: nat)
    requires TopologicalOrder(run.nodes.Keys, ArcsOf(run.edges), order) && i < |order|
    ensures var batches := Singletons(order);
            var all, before := DecideAll(batches, DeciderOf(run)), DecideAll(batches[..i], DeciderOf(run));
            && Schedule(run.nodes.Keys, ArcsOf(run.edges), batches)
            && order[i] in all && all[order[i]] == OutcomeAfter(run, order[i], before)
            && (forall k :: 0 <= k < |order| ==> (order[k] in before <==> k < i))
            && (forall k :: 0 <= k < i ==>
                  before[order[k]] == OutcomeAfter(run, order[k], DecideAll(batches[..k], DeciderOf(run))))
  {
    var ids, arcs, batches, decide := run.nodes.Keys, ArcsOf(run.edges), Singletons(order), DeciderOf(run);
    OrderIsSchedule(ids, arcs, order);
    assert batches[..|batches|] == batches;
    assert InBatch(batches, order[i], i);
    DecidePrefix(ids, arcs, batches, decide, |batches|, order[i], i);
    forall k | 0 <= k < |order|
      ensures order[k] in DecideAll(batches[..i], decide) <==> k < i
      ensures k < i ==> DecideAll(batches[..i], decide)[order[k]]
                        == OutcomeAfter(run, order[k], DecideAll(batches[..k], decide))
    {
      assert InBatch(batches, order[k], k);
      DecidePrefix(ids, arcs, batches, decide, i, order[k], k);
    }
  }

  /** A node that reads an incomparable one comes out differently in two topological orders. */
  lemma IncomparableReadDiffers(run: Run, n: Id, m: Id)
    requires TopologicalSort.Sortable(run.nodes.Keys, ArcsOf(run.edges)) && Echoing(run)
    requires n in run.nodes && m in run.nodes && m in Reads(run.nodes[n], run.edges, run.host)
    requires !Comparable(ArcsOf(run.edges), m, n)
    ensures !AllSchedulesAgree(run)
  {
    var ids, arcs, decide := run.nodes.Keys, ArcsOf(run.edges), DeciderOf(run);
    var o1, m1, n1 := OrderWithFirst(ids, arcs, m, n);
    var o2, n2, m2 := OrderWithFirst(ids, arcs, n, m);
    var p :| p in run.nodes[n].mappings && run.nodes[n].mappings[p].Str? && Root(run.nodes[n].mappings[p].s) == m;
    DecidedInOrder(run, o1, n1);
    DecidedInOrder(run, o2, n2);
    var seen, unseen := DecideAll(Singletons(o1)[..n1], decide), DecideAll(Singletons(o2)[..n2], decide);
    EchoTells(run, n, m, p, seen, unseen, DecideAll(Singletons(o1)[..m1], decide));
    assert DecideAll(Singletons(o1), decide)[n] != DecideAll(Singletons(o2), decide)[n];
  }

  /** For echoing runs: all schedules agree exactly when every node that is read is comparable with its reader. */
  lemma SchedulesAgreeExactly(run: Run)
    requires TopologicalSort.Sortable(run.nodes.Keys, ArcsOf(run.edges)) && Echoing(run)
    ensures AllSchedulesAgree(run) <==> ReadsComparable(run)
  {
    if ReadsComparable(run) {
      OutcomesAreLocal(run);
      forall s, t | Schedule(run.nodes.Keys, ArcsOf(run.edges), s) && Schedule(run.nodes.Keys, ArcsOf(run.edges), t)
        ensures DecideAll(s, DeciderOf(run)) == DecideAll(t, DeciderOf(run))
      {
        SchedulesAgree(run.nodes.Keys, ArcsOf(run.edges), s, t, DeciderOf(run));
      }
    } else {
      var n, m :| n in run.nodes && m in run.nodes && m in Reads(run.nodes[n], run.edges, run.host)
        && !Comparable(ArcsOf(run.edges), m, n);
      IncomparableReadDiffers(run, n, m);
    }
  }
}
