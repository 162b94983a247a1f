/** Whole-run properties of executions: how records move, and where engine runs come from. */
module ExecutionRuns {
  import opened Ordering
  import opened Values
  import opened ExecutionLifecycle

  datatype Step =
    | ExecuteStep(request: Request, skip: bool, id: string, now: int, attempt: Attempt)
    | ConfirmStep(tenant: string, user: string, id: string, newId: string, now: int, attempt: Attempt)
    | CancelStep(tenant: string, id: string, now: int)
    | AsyncStep(request: Request, id: string, now: int)
    | TaskStep(k: nat, newId: string, now: int, attempt: Attempt)
    | FunctionStep(request: Request, id: string, now: int, lookup: Stage<()>, run: Stage<Value>)

  function After(w: World, s: Step): World {
    match s
    case ExecuteStep(_, _, _, _, _) => AfterExecute(w, s)
    case ConfirmStep(_, _, _, _, _, _) => AfterConfirm(w, s)
    case CancelStep(_, _, _) => AfterCancel(w, s)
    case AsyncStep(_, _, _) => AfterAsync(w, s)
    case TaskStep(k, _, _, _) => if k < |w.tasks| then AfterTask(w, s) else w
    case FunctionStep(_, _, _, _, _) => AfterFunction(w, s)
  }

  function AfterExecute(w: World, s: Step): World
    requires s.ExecuteStep?
  {
    Execute(w, s.request, s.skip, None, s.id, s.now, s.attempt).0
  }

  function AfterConfirm(w: World, s: Step): World
    requires s.ConfirmStep?
  {
    Confirm(w, s.tenant, s.user, s.id, s.newId, s.now, s.attempt).0
  }

  function AfterCancel(w: World, s: Step): World
    requires s.CancelStep?
  {
    Cancel(w, s.tenant, s.id, s.now).0
  }

  function AfterAsync(w: World, s: Step): World
    requires s.AsyncStep?
  {
    ExecuteAsync(w, s.request, s.id, s.now).0
  }

  function AfterTask(w: World, s: Step): World
    requires s.TaskStep? && s.k < |w.tasks|
  {
    RunTask(w, s.k, s.newId, s.now, s.attempt)
  }

  function AfterFunction(w: World, s: Step): World
    requires s.FunctionStep?
  {
    ExecuteFunction(w, s.request, s.id, s.now, s.lookup, s.run).0
  }

  function AfterAll(w: World, steps: seq<Step>): World {
    if steps == [] then w else After(AfterAll(w, steps[..|steps| - 1]), steps[|steps| - 1])
  }

  /** Generated ids are new. */
  ghost predicate Fresh(w: World, id: string) {
    id !in w.records && forall r :: r in w.runs ==> r.record != id
  }

  ghost predicate Admissible(w: World, s: Step) {
    match s
    case ExecuteStep(_, _, id, _, _) => Fresh(w, id)
    case ConfirmStep(_, _, _, newId, _, _) => Fresh(w, newId)
    case AsyncStep(_, id, _) => Fresh(w, id)
    case TaskStep(_, newId, _, _) => Fresh(w, newId)
    case FunctionStep(_, id, _, _, _) => Fresh(w, id)
    case _ => true
  }

  // ── How records move ──

  predicate Terminal(s: Status) {
    s != Pending && s != Running
  }

  predicate Moves(s: Status, t: Status) {
    s == t || (s == Pending && t in {Success, Cancelled, Expired}) || (s == Running && t in {Success, Failed})
  }

  /** What a record asks for never changes, and nothing else does unless the status moves. */
  predicate Evolves(a: Record, b: Record) {
    && Moves(a.status, b.status) && (a.status == b.status ==> a == b)
    && a.tenant == b.tenant && a.capability == b.capability && a.rid == b.rid && a.params == b.params
    && a.level == b.level && a.user == b.user && a.branch == b.branch && a.startedAt == b.startedAt
  }

  ghost predicate Grows(before: map<string, Record>, after: map<string, Record>) {
    forall id :: id in before ==> id in after && Evolves(before[id], after[id])
  }

  /** Records that appear have ids that no engine run carried before. */
  ghost predicate NewAreFresh(w: World, w': World) {
    forall id :: id in w'.records && id !in w.records ==> forall r :: r in w.runs ==> r.record != id
  }

  /** The record is about what the request asks for. */
  predicate Asks(r: Record, request: Request) {
    r.tenant == request.tenant && r.rid == request.rid && r.params == request.params && r.branch == request.branch
  }

  predicate TaskOk(t: Task, records: map<string, Record>) {
    t.id in records && records[t.id].status == Running && Asks(records[t.id], t.request)
  }

  predicate RecordOk(r: Record) {
    !Terminal(r.status) ==> r.result == None && r.confirmedAt == None
  }

  ghost predicate NoTask(tasks: seq<Task>, id: string) {
    forall t :: t in tasks ==> t.id != id
  }

  ghost predicate TasksOk(tasks: seq<Task>, records: map<string, Record>) {
    && (forall t :: t in tasks ==> TaskOk(t, records))
    && forall i :: 0 <= i < |tasks| ==> NoTask(tasks[..i], tasks[i].id)
  }

  /** Open records are unanswered; tasks stand for running records, one each. */
  ghost predicate RecordsOk(w: World) {
    (forall id :: id in w.records ==> RecordOk(w.records[id])) && TasksOk(w.tasks, w.records)
  }

  /** Records move as they may, and stay in order; earlier engine runs stay. */
  ghost predicate Orderly(w: World, w': World) {
    && Grows(w.records, w'.records) && NewAreFresh(w, w') && RecordsOk(w')
    && forall r :: r in w.runs ==> r in w'.runs
  }

  lemma OrderlyTransitive(w0: World, w1: World, w2: World)
    requires Orderly(w0, w1) && Orderly(w1, w2)
    ensures Orderly(w0, w2)
  {
    forall id | id in w0.records ensures id in w2.records && Evolves(w0.records[id], w2.records[id]) {
      assert id in w1.records && Evolves(w0.records[id], w1.records[id]);
    }
  }

  lemma TasksStay(tasks: seq<Task>, records: map<string, Record>, id: string, r: Record)
    requires TasksOk(tasks, records) && NoTask(tasks, id)
    ensures TasksOk(tasks, records[id := r])
  {
    forall t | t in tasks ensures TaskOk(t, records[id := r]) { assert TaskOk(t, records); }
  }

  lemma FreshHasNoTask(w: World, id: string)
    requires RecordsOk(w) && id !in w.records
    ensures NoTask(w.tasks, id)
  {
    forall t | t in w.tasks ensures t.id != id { assert TaskOk(t, w.records); }
  }

  /** A new record, and possibly an engine run for it. */
  lemma AddingIsOrderly(w: World, id: string, r: Record, runs: seq<EngineRun>)
    requires RecordsOk(w) && Fresh(w, id) && RecordOk(r)
    requires forall x :: x in w.runs ==> x in runs
    ensures Orderly(w, w.(records := w.records[id := r], runs := runs))
  {
    FreshHasNoTask(w, id);
    TasksStay(w.tasks, w.records, id, r);
  }

  /** A record that no task stands for evolves. */
  lemma EvolvingIsOrderly(w: World, id: string, r: Record)
    requires RecordsOk(w) && id in w.records && NoTask(w.tasks, id)
    requires Evolves(w.records[id], r) && RecordOk(r)
    ensures Orderly(w, w.(records := w.records[id := r]))
  {
    TasksStay(w.tasks, w.records, id, r);
  }

  lemma ExecuteMoves(w: World, request: Request, skip: bool, confirming: Option<string>, id: string, now: int,
                     a: Attempt)
    requires RecordsOk(w) && Fresh(w, id)
    ensures Orderly(w, Execute(w, request, skip, confirming, id, now, a).0)
  {
    var w' := Execute(w, request, skip, confirming, id, now, a).0;
    if id in w'.records {
      AddingIsOrderly(w, id, w'.records[id], w'.runs);
    }
  }

  lemma PendingHasNoTask(w: World, id: string)
    requires RecordsOk(w) && id in w.records && w.records[id].status == Pending
    ensures NoTask(w.tasks, id)
  {
    forall t | t in w.tasks ensures t.id != id { assert TaskOk(t, w.records); }
  }

  lemma ConfirmMoves(w: World, tenant: string, user: string, id: string, newId: string, now: int, a: Attempt)
    requires RecordsOk(w) && Fresh(w, newId)
    ensures Orderly(w, Confirm(w, tenant, user, id, newId, now, a).0)
  {
    var w' := Confirm(w, tenant, user, id, newId, now, a).0;
    if id in w.records && w' != w {
      var found := w.records[id];
      var ran := Execute(w, RequestOf(found, tenant, user), true, Some(id), newId, now, a).0;
      ExecuteMoves(w, RequestOf(found, tenant, user), true, Some(id), newId, now, a);
      PendingHasNoTask(w, id);
      if now > found.startedAt + CONFIRMATION_TTL {
        EvolvingIsOrderly(w, id, w'.records[id]);
      } else if w' != ran {
        assert ran.tasks == w.tasks;
        EvolvingIsOrderly(ran, id, w'.records[id]);
        OrderlyTransitive(w, ran, w');
      }
    }
  }

  lemma DroppingTask(w: World, k: nat)
    requires RecordsOk(w) && k < |w.tasks|
    ensures var rest := w.tasks[..k] + w.tasks[k + 1..];
            Orderly(w, w.(tasks := rest)) && NoTask(rest, w.tasks[k].id)
  {
    var rest := w.tasks[..k] + w.tasks[k + 1..];
    forall i | 0 <= i < |w.tasks| && i != k ensures w.tasks[i].id != w.tasks[k].id {
      if i < k { assert w.tasks[i] in w.tasks[..k]; } else { assert w.tasks[k] in w.tasks[..i]; }
    }
    forall t | t in rest ensures TaskOk(t, w.records) && t.id != w.tasks[k].id {
      assert t in w.tasks;
    }
    forall i | 0 <= i < |rest| ensures NoTask(rest[..i], rest[i].id) {
      var j := if i < k then i else i + 1;
      assert rest[i] == w.tasks[j];
      forall t | t in rest[..i] ensures t.id != rest[i].id {
        assert t in w.tasks[..j];
      }
    }
  }

  function WithoutTask(w: World, k: nat): World
    requires k < |w.tasks|
  {
    w.(tasks := w.tasks[..k] + w.tasks[k + 1..])
  }

  /** The world between a task's action and the update of its record. */
  function TaskRan(w: World, k: nat, newId: string, now: int, a: Attempt): World
    requires k < |w.tasks|
  {
    Execute(WithoutTask(w, k), w.tasks[k].request, true, None, newId, now, a).0
  }

  predicate Delegates(r: Record) {
    r.result.Some? && r.result.value.DelegatedTo?
  }

  /** The record of the task is still running, and is then settled without delegation. */
  lemma TaskSettles(w: World, k: nat, newId: string, now: int, a: Attempt)
    requires RecordsOk(w) && k < |w.tasks| && Fresh(w, newId)
    ensures var id, ran, w' := w.tasks[k].id, TaskRan(w, k, newId, now, a), RunTask(w, k, newId, now, a);
            && id in w.records && id in ran.records && id in w'.records && ran.records[id] == w.records[id]
            && w' == ran.(records := ran.records[id := w'.records[id]])
            && Evolves(ran.records[id], w'.records[id]) && RecordOk(w'.records[id])
            && !Delegates(w'.records[id])
            && Asks(w.records[id], w.tasks[k].request) && ran.tasks == WithoutTask(w, k).tasks
  {
    var task := w.tasks[k];
    assert task in w.tasks && TaskOk(task, w.records);
    TaskResultIsData(WithoutTask(w, k), task.request, newId, now, a);
  }

  lemma TaskResultIsData(w: World, request: Request, id: string, now: int, a: Attempt)
    ensures var r := Execute(w, request, true, None, id, now, a).1;
            r.Ok? ==> r.value.result.Some? && r.value.result.value.Data?
  {
  }

  lemma TaskMoves(w: World, k: nat, newId: string, now: int, a: Attempt)
    requires RecordsOk(w) && k < |w.tasks| && Fresh(w, newId)
    ensures Orderly(w, RunTask(w, k, newId, now, a))
  {
    var started, ran, w' := WithoutTask(w, k), TaskRan(w, k, newId, now, a), RunTask(w, k, newId, now, a);
    var id := w.tasks[k].id;
    TaskSettles(w, k, newId, now, a);
    DroppingTask(w, k);
    ExecuteMoves(started, w.tasks[k].request, true, None, newId, now, a);
    OrderlyTransitive(w, started, ran);
    EvolvingIsOrderly(ran, id, w'.records[id]);
    OrderlyTransitive(w, ran, w');
  }

  lemma AddingTask(tasks: seq<Task>, records: map<string, Record>, t: Task)
    requires TasksOk(tasks, records) && TaskOk(t, records) && NoTask(tasks, t.id)
    ensures TasksOk(tasks + [t], records)
  {
    var all := tasks + [t];
    forall i | 0 <= i < |all| ensures NoTask(all[..i], all[i].id) {
      assert all[..i] == tasks[..i];
      assert tasks[..|tasks|] == tasks;
    }
  }

  lemma AsyncMoves(w: World, s: Step)
    requires RecordsOk(w) && s.AsyncStep? && Admissible(w, s)
    ensures Orderly(w, After(w, s))
  {
    var w' := After(w, s);
    AddingIsOrderly(w, s.id, w'.records[s.id], w.runs);
    FreshHasNoTask(w, s.id);
    AddingTask(w.tasks, w'.records, Task(s.id, s.request));
  }

  /** Records move only from pending or running, and terminal records never change. */
  lemma {:induction false} StepMoves(w: World, s: Step)
    requires RecordsOk(w) && Admissible(w, s)
    ensures Orderly(w, After(w, s))
  {
    var w' := After(w, s);
    match s
    case ExecuteStep(request, skip, id, now, a) => ExecuteMoves(w, request, skip, None, id, now, a);
    case ConfirmStep(tenant, user, id, newId, now, a) => ConfirmMoves(w, tenant, user, id, newId, now, a);
    case CancelStep(_, id, _) =>
      if w' != w {
        PendingHasNoTask(w, id);
        EvolvingIsOrderly(w, id, w'.records[id]);
      }
    case AsyncStep(_, _, _) => AsyncMoves(w, s);
    case TaskStep(k, newId, now, a) => if k < |w.tasks| { TaskMoves(w, k, newId, now, a); }
    case FunctionStep(_, id, _, _, _) =>
      if w' != w { AddingIsOrderly(w, id, w'.records[id], w.runs); }
  }

  // ── Runs ──

  ghost predicate AdmissibleRun(w: World, steps: seq<Step>) {
    forall i :: 0 <= i < |steps| ==> Admissible(AfterAll(w, steps[..i]), steps[i])
  }

  lemma OrderlyReflexive(w: World)
    requires RecordsOk(w)
    ensures Orderly(w, w)
  {
  }

  lemma FrontAdmissible(w: World, steps: seq<Step>)
    requires AdmissibleRun(w, steps) && steps != []
    ensures AdmissibleRun(w, steps[..|steps| - 1])
    ensures Admissible(AfterAll(w, steps[..|steps| - 1]), steps[|steps| - 1])
  {
    var front := steps[..|steps| - 1];
    assert forall i :: 0 <= i < |front| ==> front[..i] == steps[..i];
  }

  /** From any point of a run on, records only move as they may. */
  lemma {:induction false} RunsAreOrderly(w: World, steps: seq<Step>, k: nat)
    requires RecordsOk(w) && AdmissibleRun(w, steps) && k <= |steps|
    ensures Orderly(AfterAll(w, steps[..k]), AfterAll(w, steps))
    decreases |steps|
  {
    if steps == [] {
      OrderlyReflexive(w);
    } else {
      var front := steps[..|steps| - 1];
      FrontAdmissible(w, steps);
      RunsAreOrderly(w, front, if k < |steps| then k else 0);
      StepMoves(AfterAll(w, front), steps[|steps| - 1]);
      if k < |steps| {
        assert front[..k] == steps[..k];
        OrderlyTransitive(AfterAll(w, steps[..k]), AfterAll(w, front), AfterAll(w, steps));
      } else {
        assert steps[..k] == steps;
        OrderlyReflexive(AfterAll(w, steps));
      }
    }
  }

  /** A record that is terminal at some point of a run is the same record at the end. */
  lemma {:induction false} TerminalRecordsStay(w: World, steps: seq<Step>, k: nat, id: string)
    requires RecordsOk(w) && AdmissibleRun(w, steps) && k <= |steps|
    requires var earlier := AfterAll(w, steps[..k]).records; id in earlier && Terminal(earlier[id].status)
    ensures id in AfterAll(w, steps).records && AfterAll(w, steps).records[id] == AfterAll(w, steps[..k]).records[id]
  {
    RunsAreOrderly(w, steps, k);
  }

  // ── Confirmations ──

  /** The step is a confirmation, and it succeeds. */
  predicate Confirms(w: World, s: Step) {
    s.ConfirmStep? && Confirm(w, s.tenant, s.user, s.id, s.newId, s.now, s.attempt).1.Ok?
  }

  predicate AllStagesPass(a: Attempt) {
    a.level.Done? && a.params.Done? && a.engine.Done? && a.writeback.Done?
  }

  /** A confirmation succeeds exactly for a pending record of the tenant, within ten minutes, when all stages pass. */
  lemma ConfirmsExactly(w: World, s: Step)
    requires s.ConfirmStep? && Fresh(w, s.newId)
    ensures Confirms(w, s) <==>
            && s.id in w.records && w.records[s.id].tenant == s.tenant && w.records[s.id].status == Pending
            && s.now <= w.records[s.id].startedAt + CONFIRMATION_TTL && AllStagesPass(s.attempt)
    ensures Confirms(w, s) ==>
            var r, n := After(w, s).records[s.id], After(w, s).records[s.newId];
            && r.status == Success && r.result == Some(DelegatedTo(s.newId))
            && n.status == Success && RequestOf(n, s.tenant, s.user) == RequestOf(w.records[s.id], s.tenant, s.user)
  {
  }

  ghost predicate ConfirmsAt(w: World, steps: seq<Step>, i: nat)
    requires i < |steps|
  {
    Confirms(AfterAll(w, steps[..i]), steps[i])
  }

  /** No record is confirmed twice in a run. */
  lemma {:induction false} ConfirmedAtMostOnce(w: World, steps: seq<Step>, i: nat, j: nat)
    requires RecordsOk(w) && AdmissibleRun(w, steps) && i < j < |steps|
    requires ConfirmsAt(w, steps, i) && ConfirmsAt(w, steps, j)
    ensures steps[i].id != steps[j].id
  {
    PrefixAdmissible(w, steps, j);
    ConfirmedIsTerminal(w, steps, i);
    ConfirmsExactly(AfterAll(w, steps[..j]), steps[j]);
    if steps[i].id == steps[j].id {
      assert steps[..j][..i + 1] == steps[..i + 1];
      TerminalRecordsStay(w, steps[..j], i + 1, steps[i].id);
    }
  }

  lemma PrefixAdmissible(w: World, steps: seq<Step>, j: nat)
    requires AdmissibleRun(w, steps) && j < |steps|
    ensures AdmissibleRun(w, steps[..j]) && Admissible(AfterAll(w, steps[..j]), steps[j])
  {
    forall k | 0 <= k < j ensures Admissible(AfterAll(w, steps[..j][..k]), steps[..j][k]) {
      assert steps[..j][..k] == steps[..k];
    }
  }

  lemma ConfirmedIsTerminal(w: World, steps: seq<Step>, i: nat)
    requires AdmissibleRun(w, steps) && i < |steps| && ConfirmsAt(w, steps, i)
    ensures var records := AfterAll(w, steps[..i + 1]).records;
            steps[i].id in records && Terminal(records[steps[i].id].status)
  {
    assert steps[..i + 1][..i] == steps[..i];
    assert AfterAll(w, steps[..i + 1]) == After(AfterAll(w, steps[..i]), steps[i]);
    ConfirmsExactly(AfterAll(w, steps[..i]), steps[i]);
  }

  // ── Where engine runs come from ──

  /** The record asks for what the engine ran, in time, and points at the run's record once that exists. */
  predicate Justifies(c: string, x: EngineRun, records: map<string, Record>) {
    && c in records
    && records[c].tenant == x.request.tenant && RequestOf(records[c], x.request.tenant, x.request.user) == x.request
    && x.at <= records[c].startedAt + CONFIRMATION_TTL
    && (x.record in records ==> records[c].status == Success && records[c].result == Some(DelegatedTo(x.record)))
  }

  predicate RunOk(x: EngineRun, records: map<string, Record>) {
    && (x.confirming.Some? ==> Justifies(x.confirming.value, x, records))
    && (!x.skipped ==> x.level in DIRECT_EXECUTE_LEVELS && x.confirming.None?)
  }

  ghost predicate DistinctRuns(runs: seq<EngineRun>) {
    forall i, j :: 0 <= i < j < |runs| ==> runs[i].record != runs[j].record
  }

  /** Some engine run on behalf of record `c` made record `d`. */
  ghost predicate RanFor(runs: seq<EngineRun>, c: string, d: string) {
    exists x :: x in runs && x.confirming == Some(c) && x.record == d
  }

  ghost predicate DelegationsOk(w: World) {
    forall c :: c in w.records && w.records[c].result.Some? && w.records[c].result.value.DelegatedTo? ==>
      w.records[c].result.value.id in w.records && RanFor(w.runs, c, w.records[c].result.value.id)
  }

  ghost predicate AllRunsOk(runs: seq<EngineRun>, records: map<string, Record>) {
    forall x :: x in runs ==> RunOk(x, records)
  }

  ghost predicate Accounted(w: World) {
    RecordsOk(w) && DistinctRuns(w.runs) && AllRunsOk(w.runs, w.records) && DelegationsOk(w)
  }

  lemma RunsStayOk(w: World, w': World)
    requires Orderly(w, w') && AllRunsOk(w.runs, w.records)
    ensures AllRunsOk(w.runs, w'.records)
  {
    forall x | x in w.runs ensures RunOk(x, w'.records) {
      assert RunOk(x, w.records);
      if x.confirming.Some? {
        var c := x.confirming.value;
        assert Evolves(w.records[c], w'.records[c]);
        if x.record in w'.records { assert x.record in w.records; }
      }
    }
  }

  /** Delegations that were there already, or that a new run accounts for. */
  ghost predicate DelegatesOnly(w: World, w': World) {
    forall c :: c in w'.records && w'.records[c].result.Some? && w'.records[c].result.value.DelegatedTo? ==>
      (c in w.records && w.records[c] == w'.records[c])
      || (w'.records[c].result.value.id in w'.records && RanFor(w'.runs, c, w'.records[c].result.value.id))
  }

  lemma DelegationsStayOk(w: World, w': World)
    requires DelegationsOk(w) && Orderly(w, w') && DelegatesOnly(w, w')
    ensures DelegationsOk(w')
  {
    forall c | c in w'.records && w'.records[c].result.Some? && w'.records[c].result.value.DelegatedTo?
      ensures w'.records[c].result.value.id in w'.records && RanFor(w'.runs, c, w'.records[c].result.value.id)
    {
      if c in w.records && w.records[c] == w'.records[c] {
        var x :| x in w.runs && x.confirming == Some(c) && x.record == w.records[c].result.value.id;
        assert x in w'.runs;
      }
    }
  }

  lemma AccountedAfter(w: World, w': World)
    requires Accounted(w) && Orderly(w, w') && DelegatesOnly(w, w') && w'.runs == w.runs
    ensures Accounted(w')
  {
    RunsStayOk(w, w');
    DelegationsStayOk(w, w');
  }

  lemma AccountedAfterRun(w: World, w': World, x: EngineRun)
    requires Accounted(w) && Orderly(w, w') && DelegatesOnly(w, w')
    requires w'.runs == w.runs + [x] && RunOk(x, w'.records) && forall y :: y in w.runs ==> y.record != x.record
    ensures Accounted(w')
  {
    RunsStayOk(w, w');
    DelegationsStayOk(w, w');
  }

  lemma {:induction false} ExecuteIsAccounted(w: World, request: Request, skip: bool, id: string, now: int, a: Attempt)
    requires Accounted(w) && Fresh(w, id)
    ensures Accounted(Execute(w, request, skip, None, id, now, a).0)
  {
    var w' := Execute(w, request, skip, None, id, now, a).0;
    ExecuteMoves(w, request, skip, None, id, now, a);
    assert DelegatesOnly(w, w');
    if w'.runs == w.runs {
      AccountedAfter(w, w');
    } else {
      AccountedAfterRun(w, w', EngineRun(request, a.level.value, skip, None, id, now));
    }
  }

  /** The confirmation runs an engine on behalf of record `id`. */
  lemma ConfirmIsAccounted(w: World, tenant: string, user: string, id: string, newId: string, now: int, a: Attempt)
    requires Accounted(w) && Fresh(w, newId)
    ensures Accounted(Confirm(w, tenant, user, id, newId, now, a).0)
  {
    var w' := Confirm(w, tenant, user, id, newId, now, a).0;
    ConfirmMoves(w, tenant, user, id, newId, now, a);
    ConfirmRuns(w, tenant, user, id, newId, now, a);
    if w'.runs == w.runs {
      AccountedAfter(w, w');
    } else {
      AccountedAfterRun(w, w', w'.runs[|w.runs|]);
    }
  }

  /** The engine run of a confirmation, if there is one, is justified by the record, and accounts for its delegation. */
  lemma ConfirmRuns(w: World, tenant: string, user: string, id: string, newId: string, now: int, a: Attempt)
    requires RecordsOk(w) && Fresh(w, newId)
    ensures var w' := Confirm(w, tenant, user, id, newId, now, a).0;
            && DelegatesOnly(w, w')
            && (w'.runs == w.runs
                || (|w'.runs| == |w.runs| + 1 && w'.runs == w.runs + [w'.runs[|w.runs|]]
                    && w'.runs[|w.runs|].record == newId && RunOk(w'.runs[|w.runs|], w'.records)))
  {
    var w' := Confirm(w, tenant, user, id, newId, now, a).0;
    if w'.runs != w.runs {
      var x := EngineRun(RequestOf(w.records[id], tenant, user), a.level.value, true, Some(id), newId, now);
      assert w'.runs == w.runs + [x] && w'.runs[|w.runs|] == x;
      assert RanFor(w'.runs, id, newId) by { assert x in w'.runs; }
      assert Justifies(id, x, w'.records);
    }
  }

  /** Settling a record without delegation keeps the books. */
  lemma SettlingIsAccounted(w: World, id: string, r: Record)
    requires Accounted(w) && id in w.records && NoTask(w.tasks, id)
    requires Evolves(w.records[id], r) && RecordOk(r) && !Delegates(r)
    ensures Accounted(w.(records := w.records[id := r]))
  {
    EvolvingIsOrderly(w, id, r);
    AccountedAfter(w, w.(records := w.records[id := r]));
  }

  lemma DroppingIsAccounted(w: World, k: nat)
    requires Accounted(w) && k < |w.tasks|
    ensures Accounted(WithoutTask(w, k)) && NoTask(WithoutTask(w, k).tasks, w.tasks[k].id)
  {
    DroppingTask(w, k);
    AccountedAfter(w, WithoutTask(w, k));
  }

  lemma TaskIsAccounted(w: World, k: nat, newId: string, now: int, a: Attempt)
    requires Accounted(w) && k < |w.tasks| && Fresh(w, newId)
    ensures Accounted(RunTask(w, k, newId, now, a))
  {
    TaskSettles(w, k, newId, now, a);
    DroppingIsAccounted(w, k);
    ExecuteIsAccounted(WithoutTask(w, k), w.tasks[k].request, true, newId, now, a);
    var id := w.tasks[k].id;
    SettlingIsAccounted(TaskRan(w, k, newId, now, a), id, RunTask(w, k, newId, now, a).records[id]);
  }

  lemma {:induction false} StepIsAccounted(w: World, s: Step)
    requires Accounted(w) && Admissible(w, s)
    ensures Accounted(After(w, s))
  {
    match s
    case ExecuteStep(request, skip, id, now, a) => ExecuteIsAccounted(w, request, skip, id, now, a);
    case ConfirmStep(tenant, user, id, newId, now, a) => ConfirmIsAccounted(w, tenant, user, id, newId, now, a);
    case TaskStep(k, newId, now, a) => if k < |w.tasks| { TaskIsAccounted(w, k, newId, now, a); }
    case _ => QuietIsAccounted(w, s);
  }

  /** Requests that run no engine. */
  lemma QuietIsAccounted(w: World, s: Step)
    requires Accounted(w) && Admissible(w, s) && (s.CancelStep? || s.AsyncStep? || s.FunctionStep?)
    ensures Accounted(After(w, s))
  {
    StepMoves(w, s);
    QuietDelegates(w, s);
    AccountedAfter(w, After(w, s));
  }

  lemma QuietDelegates(w: World, s: Step)
    requires RecordsOk(w) && (s.CancelStep? || s.AsyncStep? || s.FunctionStep?)
    ensures After(w, s).runs == w.runs && DelegatesOnly(w, After(w, s))
  {
  }

  lemma {:induction false} RunsAreAccounted(steps: seq<Step>)
    requires AdmissibleRun(EMPTY, steps)
    ensures Accounted(AfterAll(EMPTY, steps))
  {
    if steps == [] {
    } else {
      FrontAdmissible(EMPTY, steps);
      RunsAreAccounted(steps[..|steps| - 1]);
      StepIsAccounted(AfterAll(EMPTY, steps[..|steps| - 1]), steps[|steps| - 1]);
    }
  }

  /** Of the engine runs on behalf of one pending record, at most one completed. */
  lemma CompletesAtMostOnce(w: World, x: EngineRun, y: EngineRun)
    requires Accounted(w) && x in w.runs && y in w.runs
    requires x.confirming.Some? && x.confirming == y.confirming && x.record in w.records && y.record in w.records
    ensures x == y
  {
    assert RunOk(x, w.records) && RunOk(y, w.records);
    var i :| 0 <= i < |w.runs| && w.runs[i] == x;
    var j :| 0 <= j < |w.runs| && w.runs[j] == y;
    assert x.record == y.record;
  }

  /** No two confirmed records delegate to the same execution. */
  lemma DelegationsAreDistinct(w: World, c: string, d: string)
    requires Accounted(w) && c in w.records && d in w.records && w.records[c].result == w.records[d].result
    requires w.records[c].result.Some? && w.records[c].result.value.DelegatedTo?
    ensures c == d
  {
    var id := w.records[c].result.value.id;
    var x :| x in w.runs && x.confirming == Some(c) && x.record == id;
    var y :| y in w.runs && y.confirming == Some(d) && y.record == id;
    var i :| 0 <= i < |w.runs| && w.runs[i] == x;
    var j :| 0 <= j < |w.runs| && w.runs[j] == y;
  }

  // ── No success without an engine run ──

  ghost predicate RanAs(runs: seq<EngineRun>, r: Record) {
    exists x :: x in runs && Asks(r, x.request)
  }

  predicate Succeeded(r: Record) {
    r.capability == Action && r.status == Success
  }

  ghost predicate Backed(w: World) {
    forall id :: id in w.records && Succeeded(w.records[id]) ==> RanAs(w.runs, w.records[id])
  }

  lemma StaysBacked(w: World, w': World, id: string)
    requires Backed(w) && forall x :: x in w.runs ==> x in w'.runs
    requires forall c :: c in w'.records && c != id ==> c in w.records && w.records[c] == w'.records[c]
    requires id in w'.records && Succeeded(w'.records[id]) ==> RanAs(w'.runs, w'.records[id])
    ensures Backed(w')
  {
    forall c | c in w'.records && Succeeded(w'.records[c]) ensures RanAs(w'.runs, w'.records[c]) {
      if c != id {
        var x :| x in w.runs && Asks(w.records[c], x.request);
        assert x in w'.runs;
      }
    }
  }

  lemma ExecuteIsBacked(w: World, request: Request, skip: bool, confirming: Option<string>, id: string, now: int,
                        a: Attempt)
    requires Backed(w)
    ensures var (w', r) := Execute(w, request, skip, confirming, id, now, a);
            Backed(w') && (r.Ok? && r.value.status == Success ==> exists x :: x in w'.runs && x.request == request)
  {
    var (w', r) := Execute(w, request, skip, confirming, id, now, a);
    if w'.runs != w.runs {
      assert w'.runs[|w.runs|] in w'.runs && w'.runs[|w.runs|].request == request;
    }
    StaysBacked(w, w', id);
  }

  lemma ConfirmIsBacked(w: World, s: Step)
    requires Backed(w) && s.ConfirmStep? && Admissible(w, s)
    ensures Backed(After(w, s))
  {
    var w' := After(w, s);
    if s.id in w.records && w' != w {
      var found := w.records[s.id];
      var (ran, r) := Execute(w, RequestOf(found, s.tenant, s.user), true, Some(s.id), s.newId, s.now, s.attempt);
      ExecuteIsBacked(w, RequestOf(found, s.tenant, s.user), true, Some(s.id), s.newId, s.now, s.attempt);
      if s.now > found.startedAt + CONFIRMATION_TTL {
        StaysBacked(w, w', s.id);
      } else {
        StaysBacked(ran, w', s.id);
      }
    }
  }

  lemma TaskIsBacked(w: World, k: nat, newId: string, now: int, a: Attempt)
    requires Backed(w) && RecordsOk(w) && k < |w.tasks| && Fresh(w, newId)
    ensures Backed(RunTask(w, k, newId, now, a))
  {
    TaskSettles(w, k, newId, now, a);
    ExecuteIsBacked(WithoutTask(w, k), w.tasks[k].request, true, None, newId, now, a);
    SuccessMeansTaskRan(w, k, newId, now, a);
    StaysBacked(TaskRan(w, k, newId, now, a), RunTask(w, k, newId, now, a), w.tasks[k].id);
  }

  lemma SuccessMeansTaskRan(w: World, k: nat, newId: string, now: int, a: Attempt)
    requires RecordsOk(w) && k < |w.tasks| && Fresh(w, newId)
    ensures var id, w' := w.tasks[k].id, RunTask(w, k, newId, now, a);
            id in w'.records && Succeeded(w'.records[id]) ==>
              Execute(WithoutTask(w, k), w.tasks[k].request, true, None, newId, now, a).1.Ok?
  {
    var task := w.tasks[k];
    assert task in w.tasks && TaskOk(task, w.records);
  }

  lemma StepIsBacked(w: World, s: Step)
    requires Backed(w) && RecordsOk(w) && Admissible(w, s)
    ensures Backed(After(w, s))
  {
    match s
    case ExecuteStep(request, skip, id, now, a) => ExecuteIsBacked(w, request, skip, None, id, now, a);
    case ConfirmStep(_, _, _, _, _, _) => ConfirmIsBacked(w, s);
    case CancelStep(_, id, _) => StaysBacked(w, After(w, s), id);
    case AsyncStep(_, id, _) => StaysBacked(w, After(w, s), id);
    case TaskStep(k, newId, now, a) => if k < |w.tasks| { TaskIsBacked(w, k, newId, now, a); }
    case FunctionStep(_, id, _, _, _) => StaysBacked(w, After(w, s), id);
  }

  /** In every run, every successful action record has an engine run of just what it asks for. */
  lemma {:induction false} SuccessMeansRun(steps: seq<Step>)
    requires AdmissibleRun(EMPTY, steps)
    ensures Backed(AfterAll(EMPTY, steps))
  {
    if steps == [] {
    } else {
      var front := steps[..|steps| - 1];
      FrontAdmissible(EMPTY, steps);
      SuccessMeansRun(front);
      RunsAreAccounted(front);
      StepIsBacked(AfterAll(EMPTY, front), steps[|steps| - 1]);
    }
  }

  // ── Runs that never skip ──

  predicate Careful(s: Step) {
    !s.AsyncStep? && (s.ExecuteStep? ==> !s.skip)
  }

  ghost predicate OnlyConfirmed(w: World) {
    w.tasks == [] && forall x :: x in w.runs ==> x.skipped ==> x.confirming.Some?
  }

  /**
   The step confirms a pending record of its tenant in time, and `x` is the engine run of what that record
   asks for.
   */
  ghost predicate ConfirmationOf(w: World, s: Step, x: EngineRun) {
    && s.ConfirmStep? && s.id in w.records
    && w.records[s.id].tenant == s.tenant && w.records[s.id].status == Pending
    && s.now <= w.records[s.id].startedAt + CONFIRMATION_TTL
    && x == EngineRun(RequestOf(w.records[s.id], s.tenant, s.user), x.level, true, Some(s.id), s.newId, s.now)
  }

  lemma NewRunsAreConfirmations(w: World, s: Step, x: EngineRun)
    requires x in After(w, s).runs && x.confirming.Some?
    ensures x in w.runs || ConfirmationOf(w, s, x)
  {
  }

  ghost predicate HasConfirmation(steps: seq<Step>, x: EngineRun) {
    exists i :: 0 <= i < |steps| && ConfirmationOf(AfterAll(EMPTY, steps[..i]), steps[i], x)
  }

  lemma ConfirmationStays(steps: seq<Step>, s: Step, x: EngineRun)
    requires HasConfirmation(steps, x)
    ensures HasConfirmation(steps + [s], x)
  {
    var i :| 0 <= i < |steps| && ConfirmationOf(AfterAll(EMPTY, steps[..i]), steps[i], x);
    assert (steps + [s])[..i] == steps[..i] && (steps + [s])[i] == steps[i];
  }

  /** In any run, an engine run on behalf of a record happened in a step that confirmed it while it was pending. */
  lemma {:induction false} ConfirmedRunsAreSteps(steps: seq<Step>, x: EngineRun)
    requires x in AfterAll(EMPTY, steps).runs && x.confirming.Some?
    ensures HasConfirmation(steps, x)
  {
    if steps == [] {
    } else {
      var front, last := steps[..|steps| - 1], steps[|steps| - 1];
      assert steps == front + [last];
      NewRunsAreConfirmations(AfterAll(EMPTY, front), last, x);
      if x in AfterAll(EMPTY, front).runs {
        ConfirmedRunsAreSteps(front, x);
        ConfirmationStays(front, last, x);
      } else {
        assert ConfirmationOf(AfterAll(EMPTY, steps[..|front|]), steps[|front|], x);
      }
    }
  }

  /**
   Without skipped confirmations and background runs, every engine run of an action outside the direct
   levels happened in a step that confirmed, in time, a pending record asking for exactly that; and the
   record still accounts for it at the end.
   */
  lemma {:induction false} EveryRunIsConfirmed(steps: seq<Step>, x: EngineRun)
    requires AdmissibleRun(EMPTY, steps) && forall s :: s in steps ==> Careful(s)
    requires x in AfterAll(EMPTY, steps).runs && x.level !in DIRECT_EXECUTE_LEVELS
    ensures HasConfirmation(steps, x)
    ensures x.confirming.Some? && Justifies(x.confirming.value, x, AfterAll(EMPTY, steps).records)
  {
    CarefulRuns(steps);
    RunsAreAccounted(steps);
    assert RunOk(x, AfterAll(EMPTY, steps).records);
    ConfirmedRunsAreSteps(steps, x);
  }

  lemma {:induction false} CarefulRuns(steps: seq<Step>)
    requires forall s :: s in steps ==> Careful(s)
    ensures OnlyConfirmed(AfterAll(EMPTY, steps))
  {
    if steps == [] {
    } else {
      var front, last := steps[..|steps| - 1], steps[|steps| - 1];
      assert last in steps && forall s :: s in front ==> s in steps;
      CarefulRuns(front);
      CarefulStep(AfterAll(EMPTY, front), last);
    }
  }

  lemma CarefulStep(w: World, s: Step)
    requires OnlyConfirmed(w) && Careful(s)
    ensures OnlyConfirmed(After(w, s))
  {
  }

  // ── Batches ──

  function ItemStep(request: Request, skip: bool, item: Item): Step {
    ExecuteStep(ItemRequest(request, item), skip, item.id, item.now, item.attempt)
  }

  function ItemSteps(request: Request, skip: bool, items: seq<Item>): seq<Step> {
    seq(|items|, i requires 0 <= i < |items| => ItemStep(request, skip, items[i]))
  }

  /** How many items a batch gets to. */
  function Reached(w: World, request: Request, skip: bool, items: seq<Item>, k: nat): (n: nat)
    requires k <= |items|
    ensures n <= k
  {
    if k == 0 then 0
    else if RunItems(w, request, skip, items, k - 1).stopped then Reached(w, request, skip, items, k - 1)
    else k
  }

  /** One item of a batch is one request; its result is numbered after the earlier ones. */
  lemma ItemIsRequest(p: Progress, request: Request, skip: bool, i: nat, item: Item)
    requires !p.stopped && |p.results| == i
    ensures var p' := RunItem(p, request, skip, i, item);
            && p'.world == Execute(p.world, ItemRequest(request, item), skip, None, item.id, item.now, item.attempt).0
            && (p'.stopped ==> p'.results == p.results)
            && (!p'.stopped ==> |p'.results| == i + 1 && p'.results[..i] == p.results && p'.results[i].index == i)
  {
  }

  ghost predicate Numbered(results: seq<ItemResult>) {
    forall i :: 0 <= i < |results| ==> results[i].index == i
  }

  /** A batch is its items, one request each, up to the first unhandled error; results are numbered in order. */
  lemma {:induction false} BatchIsSeparateRequests(w: World, request: Request, skip: bool, items: seq<Item>, k: nat)
    requires k <= |items|
    ensures var p := RunItems(w, request, skip, items, k);
            var n := Reached(w, request, skip, items, k);
            && p.world == AfterAll(w, ItemSteps(request, skip, items[..n]))
            && |p.results| == (if p.stopped then n - 1 else n)
            && (!p.stopped ==> n == k)
            && Numbered(p.results)
  {
    if k == 0 {
    } else {
      var before := RunItems(w, request, skip, items, k - 1);
      BatchIsSeparateRequests(w, request, skip, items, k - 1);
      if !before.stopped {
        ItemIsRequest(before, request, skip, k - 1, items[k - 1]);
        ItemsAppend(w, request, skip, items, k - 1);
      }
    }
  }

  lemma ItemsAppend(w: World, request: Request, skip: bool, items: seq<Item>, k: nat)
    requires k < |items|
    ensures AfterAll(w, ItemSteps(request, skip, items[..k + 1]))
         == Execute(AfterAll(w, ItemSteps(request, skip, items[..k])), ItemRequest(request, items[k]), skip, None,
                    items[k].id, items[k].now, items[k].attempt).0
  {
    var steps := ItemSteps(request, skip, items[..k + 1]);
    assert steps[..k] == ItemSteps(request, skip, items[..k]);
    assert steps[k] == ItemStep(request, skip, items[k]);
  }
}
