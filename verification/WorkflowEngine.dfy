/** Layer-by-layer workflow execution, and why it means the same as any sequential order. */
module WorkflowEngine {
  import opened Ordering
  import opened Digraph
  import opened WorkflowModel
  import opened Text
  import opened Values
  import opened Conditions
  import opened Scheduling
  import TopologicalSort

  /** What a node's coroutine ends with. */
  datatype TaskResult = Returned(value: Value) | Raised(error: string)

  /** Host functions: `float`, `str` on non-strings, and the optional node executor. */
  datatype Host = Host(parseFloat: string -> Option<real>,
                       repr: Value -> string,
                       executor: Option<(Node, map<string, Value>) -> TaskResult>)

  datatype Run = Run(nodes: map<Id, Node>, edges: seq<Edge>, inputs: map<string, Value>, host: Host)

  const INPUTS := "_inputs"

  /** What becomes of a node: its condition raises, it is skipped, or it ran. */
  datatype Outcome = Aborts | Skipped | Failed(error: string) | Succeeded(value: Value)

  type Valuation = map<Id, Outcome>

  // ── One node ──

  /** All conditions on incoming edges hold; `None` when evaluating one raises. */
  function ShouldExecute(id: Id, edges: seq<Edge>, context: map<string, Value>, host: Host): Option<bool> {
    if edges == [] then Some(true)
    else if edges[0].dst == id && edges[0].condition != "" then
      match EvaluateCondition(edges[0].condition, context, host.parseFloat)
      case Some(true) => ShouldExecute(id, edges[1..], context, host)
      case other => other
    else ShouldExecute(id, edges[1..], context, host)
  }

  /** The value of the condition on edge `i`, if it is an incoming one of the node; other edges count as true. */
  function ConditionAt(id: Id, edges: seq<Edge>, i: nat, context: map<string, Value>, host: Host): Option<bool>
    requires i < |edges|
  {
    if edges[i].dst == id && edges[i].condition != ""
    then EvaluateCondition(edges[i].condition, context, host.parseFloat)
    else Some(true)
  }

  /** The conditions on the first `k` edges hold. */
  ghost predicate Hold(id: Id, edges: seq<Edge>, k: nat, context: map<string, Value>, host: Host)
    requires k <= |edges|
  {
    forall j: nat :: j < k ==> ConditionAt(id, edges, j, context, host) == Some(true)
  }

  lemma HoldFirst(id: Id, edges: seq<Edge>, k: nat, context: map<string, Value>, host: Host)
    requires k < |edges|
    ensures Hold(id, edges, k + 1, context, host)
       <==> ConditionAt(id, edges, 0, context, host) == Some(true) && Hold(id, edges[1..], k, context, host)
  {
    forall j: nat | j < k
      ensures ConditionAt(id, edges[1..], j, context, host) == ConditionAt(id, edges, j + 1, context, host) {}
    if ConditionAt(id, edges, 0, context, host) == Some(true) && Hold(id, edges[1..], k, context, host) {
      forall j: nat | j < k + 1 ensures ConditionAt(id, edges, j, context, host) == Some(true) {
        if j > 0 { assert ConditionAt(id, edges[1..], j - 1, context, host) == Some(true); }
      }
    }
  }

  /** A node runs exactly when all conditions on its incoming edges hold. */
  lemma {:induction false} RunsWhenConditionsHold(id: Id, edges: seq<Edge>, context: map<string, Value>, host: Host)
    ensures ShouldExecute(id, edges, context, host) == Some(true) <==> Hold(id, edges, |edges|, context, host)
  {
    if edges == [] {
    } else {
      RunsWhenConditionsHold(id, edges[1..], context, host);
      HoldFirst(id, edges, |edges| - 1, context, host);
    }
  }

  /** Otherwise the first condition that does not hold decides: false skips the node, an error ends the run. */
  lemma {:induction false} FirstRefusalDecides(id: Id, edges: seq<Edge>, k: nat, context: map<string, Value>,
                                               host: Host)
    requires k < |edges| && Hold(id, edges, k, context, host)
    requires ConditionAt(id, edges, k, context, host) != Some(true)
    ensures ShouldExecute(id, edges, context, host) == ConditionAt(id, edges, k, context, host)
  {
    if k == 0 {
    } else {
      HoldFirst(id, edges, k - 1, context, host);
      FirstRefusalDecides(id, edges[1..], k - 1, context, host);
    }
  }

  function ResolveInputs(mappings: map<string, Value>, context: map<string, Value>): map<string, Value> {
    map p | p in mappings :: if mappings[p].Str? then Resolve(mappings[p].s, context) else mappings[p]
  }

  function ExpressionOf(node: Node, host: Host): string {
    var e := if "expression" in node.mappings then node.mappings["expression"] else Str("true");
    if e.Str? then e.s else host.repr(e)
  }

  predicate ConvertsToFloat(v: Value, host: Host) {
    v.Bool? || v.Int? || v.Real? || (v.Str? && host.parseFloat(v.s).Some?)
  }

  function ExecuteNode(node: Node, context: map<string, Value>, run: Run): TaskResult {
    var resolved := ResolveInputs(node.mappings, context[INPUTS := Dict(run.inputs)]);
    match node.kind
    case Condition =>
      (match EvaluateCondition(ExpressionOf(node, run.host), context, run.host.parseFloat)
       case Some(b) => Returned(Dict(map["result" := Bool(b)]))
       case None => Raised("TypeError"))
    case Wait =>
      var delay := if "seconds" in node.mappings then node.mappings["seconds"] else Int(0);
      if Truthy(delay) && !ConvertsToFloat(delay, run.host) then Raised("ValueError")
      else Returned(Dict(map["waited" := delay]))
    case Capability =>
      if run.host.executor.Some? then run.host.executor.value(node, resolved)
      else Returned(Dict(map["node_id" := Str(node.id), "inputs" := Dict(resolved)]))
  }

  function NodeOutcome(node: Node, context: map<string, Value>, run: Run): Outcome {
    match ShouldExecute(node.id, run.edges, context, run.host)
    case None => Aborts
    case Some(false) => Skipped
    case Some(true) =>
      match ExecuteNode(node, context, run)
      case Returned(v) => Succeeded(v)
      case Raised(e) => Failed(e)
  }

  /** The context names a node's outcome can depend on. */
  function Reads(node: Node, edges: seq<Edge>, host: Host): set<string> {
    (set e, n | e in edges && e.dst == node.id && e.condition != "" && n in ConditionReads(e.condition) :: n)
    + OwnReads(node, host)
  }

  function OwnReads(node: Node, host: Host): set<string> {
    match node.kind
    case Condition => ConditionReads(ExpressionOf(node, host))
    case Wait => {}
    case Capability => set p | p in node.mappings && node.mappings[p].Str? :: Root(node.mappings[p].s)
  }

  ghost predicate AgreeOn(names: set<string>, c1: map<string, Value>, c2: map<string, Value>) {
    forall n :: n in names ==> Get(c1, n) == Get(c2, n)
  }

  lemma {:induction false} ShouldExecuteDependsOnReads(node: Node, edges: seq<Edge>, c1: map<string, Value>,
                                                       c2: map<string, Value>, host: Host)
    requires forall e :: e in edges && e.dst == node.id && e.condition != "" ==>
               AgreeOn(ConditionReads(e.condition), c1, c2)
    ensures ShouldExecute(node.id, edges, c1, host) == ShouldExecute(node.id, edges, c2, host)
  {
    if edges == [] {
    } else {
      ShouldExecuteDependsOnReads(node, edges[1..], c1, c2, host);
      if edges[0].dst == node.id && edges[0].condition != "" {
        ConditionDependsOnReads(edges[0].condition, c1, c2, host.parseFloat);
      }
    }
  }

  lemma InputsDependOnRoots(mappings: map<string, Value>, c1: map<string, Value>, c2: map<string, Value>, inputs: Value)
    requires forall p :: p in mappings && mappings[p].Str? ==>
               Get(c1, Root(mappings[p].s)) == Get(c2, Root(mappings[p].s))
    ensures ResolveInputs(mappings, c1[INPUTS := inputs]) == ResolveInputs(mappings, c2[INPUTS := inputs])
  {
    forall p | p in mappings && mappings[p].Str?
      ensures Resolve(mappings[p].s, c1[INPUTS := inputs]) == Resolve(mappings[p].s, c2[INPUTS := inputs])
    {
      ResolveReadsRoot(mappings[p].s, c1[INPUTS := inputs], c2[INPUTS := inputs]);
    }
  }

  lemma ResultDependsOnReads(node: Node, c1: map<string, Value>, c2: map<string, Value>, run: Run)
    requires AgreeOn(OwnReads(node, run.host), c1, c2)
    ensures ExecuteNode(node, c1, run) == ExecuteNode(node, c2, run)
  {
    match node.kind
    case Condition => ConditionDependsOnReads(ExpressionOf(node, run.host), c1, c2, run.host.parseFloat);
    case Wait =>
    case Capability =>
      forall p | p in node.mappings && node.mappings[p].Str?
        ensures Root(node.mappings[p].s) in OwnReads(node, run.host) {}
      InputsDependOnRoots(node.mappings, c1, c2, Dict(run.inputs));
  }

  lemma OutcomeDependsOnReads(node: Node, c1: map<string, Value>, c2: map<string, Value>, run: Run)
    requires AgreeOn(Reads(node, run.edges, run.host), c1, c2)
    ensures NodeOutcome(node, c1, run) == NodeOutcome(node, c2, run)
  {
    var read := Reads(node, run.edges, run.host);
    forall e | e in run.edges && e.dst == node.id && e.condition != ""
      ensures AgreeOn(ConditionReads(e.condition), c1, c2)
    {
      forall n | n in ConditionReads(e.condition) ensures n in read {}
    }
    ShouldExecuteDependsOnReads(node, run.edges, c1, c2, run.host);
    ResultDependsOnReads(node, c1, c2, run);
  }

  // ── Runs ──

  /** The context after the nodes in `val` were decided. */
  function ContextOf(val: Valuation, inputs: map<string, Value>): map<string, Value> {
    map[INPUTS := Dict(inputs)] + map n | n in val && val[n].Succeeded? :: val[n].value
  }

  /** What becomes of node `n` when it is looked at after `before`. */
  function OutcomeAfter(run: Run, n: Id, before: Valuation): Outcome {
    if n in run.nodes then NodeOutcome(run.nodes[n], ContextOf(before, run.inputs), run) else Skipped
  }

  function DeciderOf(run: Run): Decider<Outcome> {
    (n, before) => OutcomeAfter(run, n, before)
  }

  /**
   Whatever a node reads from the context is the inputs, no node at all, or a node that comes before
   it, or after it, in every schedule.
   */
  ghost predicate ReadsComparable(run: Run) {
    && INPUTS !in run.nodes
    && (forall n :: n in run.nodes ==> run.nodes[n].id == n)
    && forall n, m :: n in run.nodes && m in run.nodes && m in Reads(run.nodes[n], run.edges, run.host)
         ==> Comparable(ArcsOf(run.edges), m, n)
  }

  lemma SameEntry(inputs: map<string, Value>, v: Valuation, w: Valuation, m: Id)
    requires INPUTS !in v && INPUTS !in w
    requires SameAt(v, w, m) || (m !in v && m !in w)
    ensures Get(ContextOf(v, inputs), m) == Get(ContextOf(w, inputs), m)
  {
  }

  lemma OutcomesAreLocal(run: Run)
    requires ReadsComparable(run)
    ensures Local(run.nodes.Keys, ArcsOf(run.edges), DeciderOf(run))
  {
    var ids, arcs := run.nodes.Keys, ArcsOf(run.edges);
    forall n: Id, v: Valuation, w: Valuation | n in ids && v.Keys <= ids && w.Keys <= ids
      && Ahead(arcs, v, n) && Ahead(arcs, w, n)
      && (forall m :: m in ids && Ancestor(arcs, m, n) ==> SameAt(v, w, m))
      ensures OutcomeAfter(run, n, v) == OutcomeAfter(run, n, w)
    {
      var node := run.nodes[n];
      forall m | m in Reads(node, run.edges, run.host)
        ensures Get(ContextOf(v, run.inputs), m) == Get(ContextOf(w, run.inputs), m)
      {
        assert m in ids ==> Comparable(arcs, m, n);
        SameEntry(run.inputs, v, w, m);
      }
      OutcomeDependsOnReads(node, ContextOf(v, run.inputs), ContextOf(w, run.inputs), run);
    }
  }

  // ── Reports ──

  datatype Step = StepFailed(id: Id, error: string) | StepSucceeded(id: Id, result: Value)

  datatype Report = AbortedReport | Report(partialFailure: bool, steps: seq<Step>, outputs: map<string, Value>)

  function StepOf(id: Id, o: Outcome): seq<Step> {
    match o
    case Failed(e) => [StepFailed(id, e)]
    case Succeeded(v) => [StepSucceeded(id, v)]
    case _ => []
  }

  function StepsOf(order: seq<Id>, val: Valuation): seq<Step> {
    if order == [] then []
    else
      var last := order[|order| - 1];
      StepsOf(order[..|order| - 1], val) + if last in val then StepOf(last, val[last]) else []
  }

  predicate AnyFailed(val: Valuation) {
    exists n :: n in val && val[n].Failed?
  }

  predicate AnyAborts(val: Valuation) {
    exists n :: n in val && val[n].Aborts?
  }

  function ReportOf(order: seq<Id>, val: Valuation, inputs: map<string, Value>): Report {
    if AnyAborts(val) then AbortedReport
    else Report(AnyFailed(val), StepsOf(order, val), ContextOf(val, inputs) - {INPUTS})
  }

  /** Equal up to the order in which steps are listed. */
  ghost predicate SameReport(r: Report, s: Report) {
    r == s || (r.Report? && s.Report? && r.partialFailure == s.partialFailure && r.outputs == s.outputs
               && multiset(r.steps) == multiset(s.steps))
  }

  lemma {:induction false} StepsOfFacts(order: seq<Id>, val: Valuation)
    requires Distinct(order)
    ensures Distinct(StepsOf(order, val))
    ensures forall st :: st in StepsOf(order, val)
              <==> st.id in order && st.id in val && StepOf(st.id, val[st.id]) == [st]
  {
    if order == [] {
    } else {
      var front, last := order[..|order| - 1], order[|order| - 1];
      StepsOfFacts(front, val);
      assert order == front + [last] && last !in front;
    }
  }

  /** A report shows each failed and each succeeded node once, outputs of the latter only, and no skipped ones. */
  lemma ReportIsFaithful(order: seq<Id>, val: Valuation, inputs: map<string, Value>)
    requires Distinct(order) && INPUTS !in val && (forall n :: n in order <==> n in val)
    ensures var r := ReportOf(order, val, inputs);
            r.Report? ==>
              && (r.partialFailure <==> exists n :: n in val && val[n].Failed?)
              && (forall n :: n in r.outputs <==> n in val && val[n].Succeeded?)
              && (forall n :: n in r.outputs ==> r.outputs[n] == val[n].value)
              && Distinct(r.steps)
              && (forall n, e :: StepFailed(n, e) in r.steps <==> n in val && val[n] == Failed(e))
              && (forall n, v :: StepSucceeded(n, v) in r.steps <==> n in val && val[n] == Succeeded(v))
  {
    StepsOfFacts(order, val);
  }

  lemma {:induction false} DistinctCounts<T>(s: seq<T>)
    requires Distinct(s)
    ensures forall x :: multiset(s)[x] == if x in s then 1 else 0
  {
    if s == [] {
    } else {
      var front, last := s[..|s| - 1], s[|s| - 1];
      DistinctCounts(front);
      assert s == front + [last] && last !in front;
    }
  }

  lemma SameElementsSameMultiset<T>(s: seq<T>, t: seq<T>)
    requires Distinct(s) && Distinct(t) && forall x :: x in s <==> x in t
    ensures multiset(s) == multiset(t)
  {
    DistinctCounts(s);
    DistinctCounts(t);
  }

  /** Any two schedules report the same, up to the order of steps. */
  lemma ReportsAgree(run: Run, s: seq<seq<Id>>, t: seq<seq<Id>>)
    requires Schedule(run.nodes.Keys, ArcsOf(run.edges), s) && Schedule(run.nodes.Keys, ArcsOf(run.edges), t)
    requires ReadsComparable(run)
    ensures DecideAll(s, DeciderOf(run)) == DecideAll(t, DeciderOf(run))
    ensures SameReport(ReportOf(Flatten(s), DecideAll(s, DeciderOf(run)), run.inputs),
                       ReportOf(Flatten(t), DecideAll(t, DeciderOf(run)), run.inputs))
  {
    OutcomesAreLocal(run);
    SchedulesAgree(run.nodes.Keys, ArcsOf(run.edges), s, t, DeciderOf(run));
    var val := DecideAll(s, DeciderOf(run));
    FlattenFacts(s);
    FlattenFacts(t);
    StepsOfFacts(Flatten(s), val);
    StepsOfFacts(Flatten(t), val);
    forall n ensures n in Flatten(s) <==> n in Flatten(t) {
      assert n in Flatten(s) <==> n in run.nodes;
      assert n in Flatten(t) <==> n in run.nodes;
    }
    SameElementsSameMultiset(StepsOf(Flatten(s), val), StepsOf(Flatten(t), val));
  }

  lemma LayersAreSchedule(ids: set<Id>, arcs: Arcs, layers: seq<seq<Id>>)
    requires TopologicalSort.Sortable(ids, arcs) && TopologicalSort.Layered(ids, arcs, layers)
    ensures Schedule(ids, arcs, layers)
  {
    forall n, i | InBatch(layers, n, i) ensures n in ids {
      assert TopologicalSort.IsLayer(ids, arcs, i, layers[i]);
      assert n in Elements(layers[i]);
    }
    forall n | n in ids
      ensures exists i :: InBatch(layers, n, i)
      ensures forall i, j :: InBatch(layers, n, i) && InBatch(layers, n, j) ==> i == j
    {
      TopologicalSort.LayerIsDepth(ids, arcs, layers, n);
      var i :| 0 <= i < |layers| && n in layers[i];
      assert InBatch(layers, n, i);
    }
    forall i | 0 <= i < |layers| ensures Distinct(layers[i]) {
      assert TopologicalSort.IsLayer(ids, arcs, i, layers[i]);
      forall a, b | 0 <= a < b < |layers[i]| ensures layers[i][a] != layers[i][b] {
        StrLessTrichotomy(layers[i][a], layers[i][b]);
      }
    }
    forall a, i, j | a in arcs && InBatch(layers, a.0, i) && InBatch(layers, a.1, j) ensures i < j {
      TopologicalSort.EdgesGoForward(ids, arcs, layers, a, i, j);
    }
  }

  /** Parallel layers mean the same as running the nodes one by one in any topological order. */
  lemma {:induction false} ParallelMeansSequential(run: Run, layers: seq<seq<Id>>, order: seq<Id>)
    requires TopologicalSort.Sortable(run.nodes.Keys, ArcsOf(run.edges))
    requires TopologicalSort.Layered(run.nodes.Keys, ArcsOf(run.edges), layers)
    requires TopologicalOrder(run.nodes.Keys, ArcsOf(run.edges), order) && ReadsComparable(run)
    ensures DecideAll(layers, DeciderOf(run)) == DecideInOrder(order, DeciderOf(run))
    ensures SameReport(ReportOf(Flatten(layers), DecideAll(layers, DeciderOf(run)), run.inputs),
                       ReportOf(order, DecideInOrder(order, DeciderOf(run)), run.inputs))
  {
    LayersAreSchedule(run.nodes.Keys, ArcsOf(run.edges), layers);
    OrderIsSchedule(run.nodes.Keys, ArcsOf(run.edges), order);
    SingletonsDecideInOrder(order, DeciderOf(run));
    SingletonsFlatten(order);
    ReportsAgree(run, layers, Singletons(order));
  }

  // ── The engine ──

  /** What the engine's variables hold while it goes through the layers. */
  datatype Progress = Progress(context: map<string, Value>, steps: seq<Step>, partialFailure: bool)

  function Record(p: Progress, id: Id, o: Outcome): Progress {
    match o
    case Failed(e) => p.(steps := p.steps + [StepFailed(id, e)], partialFailure := true)
    case Succeeded(v) => p.(steps := p.steps + [StepSucceeded(id, v)], context := p.context[id := v])
    case _ => p
  }

  function RecordAll(p: Progress, order: seq<Id>, val: Valuation): Progress
    requires forall n :: n in order ==> n in val
  {
    if order == [] then p
    else Record(RecordAll(p, order[..|order| - 1], val), order[|order| - 1], val[order[|order| - 1]])
  }

  lemma RecordNext(p: Progress, order: seq<Id>, i: nat, val: Valuation)
    requires i < |order| && forall n :: n in order ==> n in val
    ensures RecordAll(p, order[..i + 1], val) == Record(RecordAll(p, order[..i], val), order[i], val[order[i]])
  {
    assert order[..i + 1][..i] == order[..i];
  }

  lemma RecordAppend(p: Progress, order: seq<Id>, n: Id, val: Valuation)
    requires n in val && forall m :: m in order ==> m in val
    ensures RecordAll(p, order + [n], val) == Record(RecordAll(p, order, val), n, val[n])
  {
    assert (order + [n])[..|order|] == order;
  }

  /** Conditions decide between abort, skip and run. */
  predicate Matches(should: Option<bool>, o: Outcome) {
    match should
    case None => o.Aborts?
    case Some(false) => o.Skipped?
    case Some(true) => o.Failed? || o.Succeeded?
  }

  /** Nodes of a layer whose conditions hold, in layer order; aborts when a condition raises. */
  method SelectExecutable(layer: seq<Id>, p: Progress, run: Run, ghost after: Valuation)
    returns (aborted: bool, executable: seq<Id>)
    requires forall n :: n in layer ==>
               n in after && Matches(ShouldExecute(n, run.edges, p.context, run.host), after[n])
    ensures aborted <==> exists n :: n in layer && after[n].Aborts?
    ensures !aborted ==> forall n :: n in executable ==> n in layer && (after[n].Failed? || after[n].Succeeded?)
    ensures !aborted ==> RecordAll(p, executable, after) == RecordAll(p, layer, after)
  {
    executable := [];
    for i := 0 to |layer|
      invariant forall j :: 0 <= j < i ==> !after[layer[j]].Aborts?
      invariant forall n :: n in executable ==> n in layer && (after[n].Failed? || after[n].Succeeded?)
      invariant RecordAll(p, executable, after) == RecordAll(p, layer[..i], after)
    {
      var n := layer[i];
      RecordNext(p, layer, i, after);
      match ShouldExecute(n, run.edges, p.context, run.host) {
        case None =>
          return true, [];
        case Some(should) =>
          if should {
            RecordAppend(p, executable, n, after);
            executable := executable + [n];
          }
      }
    }
    assert layer[..|layer|] == layer;
    aborted := false;
  }

  function OutcomeOf(r: TaskResult): Outcome {
    match r
    case Returned(v) => Succeeded(v)
    case Raised(e) => Failed(e)
  }

  /** Runs the tasks of a layer to completion, in whatever order they happen to finish. */
  method Gather(executable: seq<Id>, context: map<string, Value>, run: Run) returns (results: seq<TaskResult>)
    requires forall n :: n in executable ==> n in run.nodes
    ensures |results| == |executable|
    ensures forall i :: 0 <= i < |results| ==> results[i] == ExecuteNode(run.nodes[executable[i]], context, run)
  {
    results := seq(|executable|, i => Raised("pending"));
    var pending := set i {:trigger executable[i]} | 0 <= i < |executable|;
    while pending != {}
      invariant |results| == |executable|
      invariant forall i :: i in pending ==> 0 <= i < |executable|
      invariant forall i :: 0 <= i < |executable| && i !in pending ==>
                  results[i] == ExecuteNode(run.nodes[executable[i]], context, run)
      decreases pending
    {
      var i :| i in pending;
      pending := pending - {i};
      results := results[i := ExecuteNode(run.nodes[executable[i]], context, run)];
    }
  }

  /** Folds the results of a layer into context, steps and status. */
  method Collect(executable: seq<Id>, results: seq<TaskResult>, p0: Progress, ghost after: Valuation)
    returns (p: Progress)
    requires |results| == |executable| && forall n :: n in executable ==> n in after
    requires forall i :: 0 <= i < |results| ==> after[executable[i]] == OutcomeOf(results[i])
    ensures p == RecordAll(p0, executable, after)
  {
    var context, steps, partialFailure := p0.context, p0.steps, p0.partialFailure;
    for i := 0 to |executable|
      invariant Progress(context, steps, partialFailure) == RecordAll(p0, executable[..i], after)
    {
      RecordNext(p0, executable, i, after);
      match results[i] {
        case Raised(e) =>
          steps := steps + [StepFailed(executable[i], e)];
          partialFailure := true;
        case Returned(v) =>
          steps := steps + [StepSucceeded(executable[i], v)];
          context := context[executable[i] := v];
      }
    }
    assert executable[..|executable|] == executable;
    p := Progress(context, steps, partialFailure);
  }

  lemma OutcomeByCondition(run: Run, n: Id, before: Valuation)
    requires n in run.nodes && run.nodes[n].id == n
    ensures var context, o := ContextOf(before, run.inputs), OutcomeAfter(run, n, before);
            && Matches(ShouldExecute(n, run.edges, context, run.host), o)
            && (o.Failed? || o.Succeeded? ==> o == OutcomeOf(ExecuteNode(run.nodes[n], context, run)))
  {
  }

  /** One layer. */
  method RunLayer(layer: seq<Id>, p0: Progress, run: Run, ghost before: Valuation)
    returns (aborted: bool, p: Progress)
    requires forall n :: n in layer ==> n in run.nodes && run.nodes[n].id == n
    requires p0.context == ContextOf(before, run.inputs)
    ensures var after := DecideBatch(layer, before, DeciderOf(run));
            && (aborted <==> exists n :: n in layer && after[n].Aborts?)
            && (!aborted ==> p == RecordAll(p0, layer, after))
  {
    ghost var after := DecideBatch(layer, before, DeciderOf(run));
    forall n | n in layer
      ensures Matches(ShouldExecute(n, run.edges, p0.context, run.host), after[n])
      ensures after[n].Failed? || after[n].Succeeded? ==>
                after[n] == OutcomeOf(ExecuteNode(run.nodes[n], p0.context, run))
    {
      OutcomeByCondition(run, n, before);
    }
    var executable;
    aborted, executable := SelectExecutable(layer, p0, run, after);
    p := p0;
    if !aborted {
      var results := Gather(executable, p0.context, run);
      p := Collect(executable, results, p0, after);
    }
  }

  /** The progress that reports exactly the decisions in `val`. */
  function ProgressOf(order: seq<Id>, val: Valuation, inputs: map<string, Value>): Progress {
    Progress(ContextOf(val, inputs), StepsOf(order, val), AnyFailed(val))
  }

  lemma {:induction false} StepsStay(order: seq<Id>, v: Valuation, w: Valuation)
    requires forall n :: n in order ==> SameAt(v, w, n)
    ensures StepsOf(order, v) == StepsOf(order, w)
  {
    if order == [] {
    } else {
      assert SameAt(v, w, order[|order| - 1]);
      StepsStay(order[..|order| - 1], v, w);
    }
  }

  /** The decisions `before` together with those of `after` on a list of nodes. */
  function Restricted(before: Valuation, layer: seq<Id>, after: Valuation): Valuation
    requires forall n :: n in layer ==> n in after
  {
    before + map n | n in layer :: after[n]
  }

  lemma RestrictedNext(before: Valuation, front: seq<Id>, n: Id, after: Valuation)
    requires Extends(before, after) && n in after && forall m :: m in front ==> m in after
    ensures Restricted(before, front + [n], after) == Restricted(before, front, after)[n := after[n]]
    ensures n in Restricted(before, front, after) ==> Restricted(before, front, after)[n] == after[n]
  {
    assert n in before ==> SameAt(before, after, n);
  }

  /** Recording a layer's outcomes gives the progress of the extended decisions. */
  lemma {:induction false} RecordMeansProgress(order: seq<Id>, before: Valuation, layer: seq<Id>, after: Valuation,
                                               inputs: map<string, Value>)
    requires Extends(before, after) && forall n :: n in layer ==> n in after
    requires forall n :: n in order ==> n in before
    ensures RecordAll(ProgressOf(order, before, inputs), layer, after)
         == ProgressOf(order + layer, Restricted(before, layer, after), inputs)
  {
    if layer == [] {
      assert order + layer == order;
      assert Restricted(before, layer, after) == before;
    } else {
      var front, last := layer[..|layer| - 1], layer[|layer| - 1];
      assert layer == front + [last];
      RecordMeansProgress(order, before, front, after, inputs);
      RecordingOneMore(order, before, front, last, after, inputs);
    }
  }

  lemma RecordingOneMore(order: seq<Id>, before: Valuation, front: seq<Id>, n: Id, after: Valuation,
                         inputs: map<string, Value>)
    requires Extends(before, after) && n in after && forall m :: m in front ==> m in after
    requires forall m :: m in order ==> m in before
    ensures Record(ProgressOf(order + front, Restricted(before, front, after), inputs), n, after[n])
         == ProgressOf(order + (front + [n]), Restricted(before, front + [n], after), inputs)
  {
    var v := Restricted(before, front, after);
    RestrictedNext(before, front, n, after);
    StepsStay(order + front, v, v[n := after[n]]);
    RecordOne(order + front, v, n, after[n], inputs);
    assert order + (front + [n]) == order + front + [n];
  }

  lemma RecordOne(order: seq<Id>, v: Valuation, n: Id, o: Outcome, inputs: map<string, Value>)
    requires n in v ==> v[n] == o
    requires StepsOf(order, v) == StepsOf(order, v[n := o])
    ensures Record(ProgressOf(order, v, inputs), n, o) == ProgressOf(order + [n], v[n := o], inputs)
  {
    assert (order + [n])[..|order|] == order;
    ContextAfterOne(v, n, o, inputs);
    FailedAfterOne(v, n, o);
  }

  lemma ContextAfterOne(v: Valuation, n: Id, o: Outcome, inputs: map<string, Value>)
    requires n in v ==> v[n] == o
    ensures ContextOf(v[n := o], inputs)
         == if o.Succeeded? then ContextOf(v, inputs)[n := o.value] else ContextOf(v, inputs)
  {
  }

  lemma FailedAfterOne(v: Valuation, n: Id, o: Outcome)
    requires n in v ==> v[n] == o
    ensures AnyFailed(v[n := o]) == (AnyFailed(v) || o.Failed?)
  {
    var w := v[n := o];
    assert w[n] == o;
    if AnyFailed(v) {
      var m :| m in v && v[m].Failed?;
      assert w[m].Failed?;
    }
  }

  /** A layer's nodes are new, and recording them keeps the progress in step with the decisions. */
  lemma LayerProgress(run: Run, layers: seq<seq<Id>>, k: nat)
    requires Schedule(run.nodes.Keys, ArcsOf(run.edges), layers) && k < |layers|
    ensures var before, after := DecideAll(layers[..k], DeciderOf(run)), DecideAll(layers[..k + 1], DeciderOf(run));
            && after == DecideBatch(layers[k], before, DeciderOf(run))
            && RecordAll(ProgressOf(Flatten(layers[..k]), before, run.inputs), layers[k], after)
               == ProgressOf(Flatten(layers[..k + 1]), after, run.inputs)
            && Extends(before, after)
    ensures forall n :: n in layers[k] ==> n in run.nodes
  {
    var decide := DeciderOf(run);
    var before, after := DecideAll(layers[..k], decide), DecideAll(layers[..k + 1], decide);
    DecideNext(layers, decide, k);
    var front := layers[..k];
    assert layers[..k + 1][..k] == front;
    forall n | n in layers[k] ensures n in run.nodes && n !in before {
      assert InBatch(layers, n, k);
      DecidePrefix(run.nodes.Keys, ArcsOf(run.edges), layers, decide, k, n, k);
    }
    assert forall n, i :: InBatch(front, n, i) ==> InBatch(layers, n, i);
    FlattenFacts(front);
    forall n | n in Flatten(front) ensures n in before {
      var i :| InBatch(front, n, i);
      DecidePrefix(run.nodes.Keys, ArcsOf(run.edges), layers, decide, k, n, i);
    }
    assert Restricted(before, layers[k], after) == after;
    RecordMeansProgress(Flatten(front), before, layers[k], after, run.inputs);
  }

  lemma AbortsStay(v: Valuation, w: Valuation)
    requires Extends(v, w) && AnyAborts(v)
    ensures AnyAborts(w)
  {
    var n :| n in v && v[n].Aborts?;
    assert SameAt(v, w, n);
  }

  /** A run aborts in a layer exactly when one of its nodes does, and then as a whole. */
  lemma LayerAborts(run: Run, layers: seq<seq<Id>>, k: nat)
    requires Schedule(run.nodes.Keys, ArcsOf(run.edges), layers) && k < |layers|
    requires !AnyAborts(DecideAll(layers[..k], DeciderOf(run)))
    ensures var after := DecideAll(layers[..k + 1], DeciderOf(run));
            && (forall n :: n in layers[k] ==> n in after)
            && (AnyAborts(after) <==> exists n :: n in layers[k] && after[n].Aborts?)
            && (AnyAborts(after) ==> AnyAborts(DecideAll(layers, DeciderOf(run))))
  {
    var before, after := DecideAll(layers[..k], DeciderOf(run)), DecideAll(layers[..k + 1], DeciderOf(run));
    LayerProgress(run, layers, k);
    BatchAborts(layers[k], before, DeciderOf(run));
    DecisionsStay(run.nodes.Keys, ArcsOf(run.edges), layers, DeciderOf(run), k + 1);
    if AnyAborts(after) { AbortsStay(after, DecideAll(layers, DeciderOf(run))); }
  }

  lemma BatchAborts(layer: seq<Id>, before: Valuation, decide: Decider<Outcome>)
    requires !AnyAborts(before) && Extends(before, DecideBatch(layer, before, decide))
    ensures var after := DecideBatch(layer, before, decide);
            AnyAborts(after) <==> exists n :: n in layer && after[n].Aborts?
  {
    var after := DecideBatch(layer, before, decide);
    if AnyAborts(after) {
      var n :| n in after && after[n].Aborts?;
      assert n in before ==> SameAt(before, after, n);
    }
  }

  datatype ExecuteResult = NotSorted | Executed(report: Report)

  /** Goes through the layers of a schedule; stops at the first condition that raises. */
  method RunLayers(layers: seq<seq<Id>>, run: Run) returns (report: Report)
    requires Schedule(run.nodes.Keys, ArcsOf(run.edges), layers)
    requires forall n :: n in run.nodes ==> run.nodes[n].id == n
    ensures report == ReportOf(Flatten(layers), DecideAll(layers, DeciderOf(run)), run.inputs)
  {
    var p := Progress(map[INPUTS := Dict(run.inputs)], [], false);
    assert ContextOf(map[], run.inputs) == p.context;
    for k := 0 to |layers|
      invariant p == ProgressOf(Flatten(layers[..k]), DecideAll(layers[..k], DeciderOf(run)), run.inputs)
      invariant !AnyAborts(DecideAll(layers[..k], DeciderOf(run)))
    {
      LayerProgress(run, layers, k);
      ghost var before := DecideAll(layers[..k], DeciderOf(run));
      var aborted, p' := RunLayer(layers[k], p, run, before);
      LayerAborts(run, layers, k);
      if aborted {
        return AbortedReport;
      }
      p := p';
    }
    assert layers[..|layers|] == layers;
    report := Report(p.partialFailure, p.steps, p.context - {INPUTS});
  }

  /** The report of running the nodes one at a time. */
  ghost predicate Sequential(run: Run, report: Report) {
    forall order :: TopologicalOrder(run.nodes.Keys, ArcsOf(run.edges), order) ==>
      SameReport(report, ReportOf(order, DecideInOrder(order, DeciderOf(run)), run.inputs))
  }

  lemma LayeredIsSequential(run: Run, layers: seq<seq<Id>>)
    requires TopologicalSort.Layered(run.nodes.Keys, ArcsOf(run.edges), layers)
    requires TopologicalSort.Sortable(run.nodes.Keys, ArcsOf(run.edges)) && ReadsComparable(run)
    ensures Sequential(run, ReportOf(Flatten(layers), DecideAll(layers, DeciderOf(run)), run.inputs))
  {
    forall order | TopologicalOrder(run.nodes.Keys, ArcsOf(run.edges), order)
      ensures SameReport(ReportOf(Flatten(layers), DecideAll(layers, DeciderOf(run)), run.inputs),
                         ReportOf(order, DecideInOrder(order, DeciderOf(run)), run.inputs))
    {
      ParallelMeansSequential(run, layers, order);
    }
  }

  /**
   Sorts, runs layer by layer, and reports what deciding the layers gives; if reads are comparable, that
   is what running the nodes one at a time gives, in any order that respects the edges.
   */
  method Execute(nodes: seq<Node>, edges: seq<Edge>, inputs: map<string, Value>, host: Host)
    returns (r: ExecuteResult, ghost layers: seq<seq<Id>>)
    ensures nodes == [] ==> r == Executed(Report(false, [], map[]))
    ensures r.NotSorted? <==> nodes != [] && !TopologicalSort.Sortable(NodeIds(nodes), ArcsOf(edges))
    ensures nodes != [] && r.Executed? ==>
              var run := Run(NodeMap(nodes), edges, inputs, host);
              && TopologicalSort.Layered(NodeIds(nodes), ArcsOf(edges), layers)
              && (forall other :: TopologicalSort.Layered(NodeIds(nodes), ArcsOf(edges), other) ==> other == layers)
              && r.report == ReportOf(Flatten(layers), DecideAll(layers, DeciderOf(run)), inputs)
              && (ReadsComparable(run) ==> Sequential(run, r.report))
  {
    if nodes == [] {
      return Executed(Report(false, [], map[])), [];
    }
    var sorted := TopologicalSort.Sort(nodes, edges);
    if !sorted.Layers? {
      return NotSorted, [];
    }
    layers := sorted.layers;
    forall other | TopologicalSort.Layered(NodeIds(nodes), ArcsOf(edges), other) ensures other == layers {
      TopologicalSort.LayersAreUnique(NodeIds(nodes), ArcsOf(edges), other, layers);
    }
    ghost var run := Run(NodeMap(nodes), edges, inputs, host);
    LayersAreSchedule(NodeIds(nodes), ArcsOf(edges), layers);
    var report := RunLayers(sorted.layers, Run(NodeMap(nodes), edges, inputs, host));
    if ReadsComparable(run) { LayeredIsSequential(run, layers); }
    r := Executed(report);
  }
}
