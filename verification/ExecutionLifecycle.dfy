/** Action executions: direct runs, pending confirmations, batches, background runs and global functions. */
module ExecutionLifecycle {
  import opened Ordering
  import opened Values

  datatype Status = Pending | Running | Success | Failed | Cancelled | Expired

  datatype Capability = Action | Function

  datatype Outcome = Data(value: Value, writeback: seq<string>) | DelegatedTo(id: string) | ErrorText

  datatype Record = Record(tenant: string, capability: Capability, rid: string, params: Row, status: Status,
                           level: string, user: string, branch: Option<string>, startedAt: int,
                           completedAt: Option<int>, confirmedAt: Option<int>, confirmedBy: Option<string>,
                           result: Option<Outcome>)

  /** Who asks, and for what. */
  datatype Request = Request(tenant: string, user: string, rid: string, params: Row, branch: Option<string>)

  datatype Failure =
    | NotFound | InvalidInput | ConfirmationExpired
    | Stopped(handled: bool)  // a stage outside the service raised; `handled` for application errors

  /** What a stage outside the service does: the loader, the resolver, an engine, the write-back. */
  datatype Stage<+T> = Done(value: T) | Raises(handled: bool)

  /** One pass through the stages; `level` comes with the loaded action. */
  datatype Attempt = Attempt(level: Stage<string>, params: Stage<()>, engine: Stage<Value>,
                             writeback: Stage<seq<string>>)

  /** An engine run, and the pending record whose confirmation caused it, if any. */
  datatype EngineRun = EngineRun(request: Request, level: string, skipped: bool, confirming: Option<string>,
                                 record: string, at: int)

  /** A background execution that has not run yet. */
  datatype Task = Task(id: string, request: Request)

  datatype World = World(records: map<string, Record>, runs: seq<EngineRun>, tasks: seq<Task>)

  datatype Result<+T> = Ok(value: T) | Err(failure: Failure)

  datatype Response = Response(id: string, status: Status, result: Option<Outcome>)

  const DIRECT_EXECUTE_LEVELS := {"SAFETY_READ_ONLY", "SAFETY_IDEMPOTENT_WRITE"}

  /** Ten minutes, in microseconds. */
  const CONFIRMATION_TTL := 600_000_000

  const BY_COPILOT := "copilot_interrupt"
  const BY_USER := "user"

  predicate RequiresConfirmation(level: string, skip: bool) {
    !skip && level !in DIRECT_EXECUTE_LEVELS
  }

  function Started(request: Request, capability: Capability, status: Status, level: string, now: int): Record {
    Record(request.tenant, capability, request.rid, request.params, status, level, request.user, request.branch, now,
           None, None, None, None)
  }

  // ── What each request does ──

  /** `confirming` is the pending record on whose behalf the action runs. */
  function Execute(w: World, request: Request, skip: bool, confirming: Option<string>, id: string, now: int, a: Attempt)
    : (World, Result<Response>)
  {
    if a.level.Raises? then (w, Err(Stopped(a.level.handled)))
    else if a.params.Raises? then (w, Err(Stopped(a.params.handled)))
    else if RequiresConfirmation(a.level.value, skip) then
      (w.(records := w.records[id := Started(request, Action, Pending, a.level.value, now)]),
       Ok(Response(id, Pending, None)))
    else
      var ran := w.(runs := w.runs + [EngineRun(request, a.level.value, skip, confirming, id, now)]);
      if a.engine.Raises? then (ran, Err(Stopped(a.engine.handled)))
      else if a.writeback.Raises? then (ran, Err(Stopped(a.writeback.handled)))
      else
        var done := Started(request, Action, Success, a.level.value, now)
                    .(completedAt := Some(now), confirmedBy := if skip then Some(BY_COPILOT) else None,
                      result := Some(Data(a.engine.value, a.writeback.value)));
        (ran.(records := w.records[id := done]), Ok(Response(id, Success, done.result)))
  }

  /** The record with this id, if it is the tenant's. */
  function Find(w: World, id: string, tenant: string): Option<Record> {
    if id in w.records && w.records[id].tenant == tenant then Some(w.records[id]) else None
  }

  function RequestOf(r: Record, tenant: string, user: string): Request {
    Request(tenant, user, r.rid, r.params, r.branch)
  }

  function Confirm(w: World, tenant: string, user: string, id: string, newId: string, now: int, a: Attempt)
    : (World, Result<Response>)
  {
    var found := Find(w, id, tenant);
    if found.None? then (w, Err(NotFound))
    else if found.value.status != Pending then (w, Err(InvalidInput))
    else if now > found.value.startedAt + CONFIRMATION_TTL then
      (w.(records := w.records[id := found.value.(status := Expired, completedAt := Some(now))]),
       Err(ConfirmationExpired))
    else
      var (ran, r) := Execute(w, RequestOf(found.value, tenant, user), true, Some(id), newId, now, a);
      if r.Err? then (ran, r)
      else
        var confirmed := found.value.(status := Success, completedAt := Some(now), confirmedAt := Some(now),
                                      confirmedBy := Some(BY_USER), result := Some(DelegatedTo(r.value.id)));
        (ran.(records := ran.records[id := confirmed]), r)
  }

  function Cancel(w: World, tenant: string, id: string, now: int): (World, Result<Response>) {
    var found := Find(w, id, tenant);
    if found.None? then (w, Err(NotFound))
    else if found.value.status != Pending then (w, Err(InvalidInput))
    else
      (w.(records := w.records[id := found.value.(status := Cancelled, completedAt := Some(now))]),
       Ok(Response(id, Cancelled, None)))
  }

  function ExecuteAsync(w: World, request: Request, id: string, now: int): (World, Result<Response>) {
    (w.(records := w.records[id := Started(request, Action, Running, "unknown", now)],
        tasks := w.tasks + [Task(id, request)]),
     Ok(Response(id, Running, None)))
  }

  /** Sets the status of the tenant's record, if there is one. */
  function SetStatus(w: World, tenant: string, id: string, status: Status, result: Option<Outcome>, now: int): World {
    match Find(w, id, tenant)
    case None => w
    case Some(r) =>
      w.(records := w.records[id := r.(status := status, completedAt := Some(now),
                                       result := if result.Some? then result else r.result)])
  }

  /** A scheduled task runs: the action without confirmation, then the original record. */
  function RunTask(w: World, k: nat, newId: string, now: int, a: Attempt): World
    requires k < |w.tasks|
  {
    var task := w.tasks[k];
    var started := w.(tasks := w.tasks[..k] + w.tasks[k + 1..]);
    var (ran, r) := Execute(started, task.request, true, None, newId, now, a);
    match r
    case Ok(response) => SetStatus(ran, task.request.tenant, task.id, Success, response.result, now)
    case Err(_) => SetStatus(ran, task.request.tenant, task.id, Failed, Some(ErrorText), now)
  }

  /** A global function: an unhandled exception rolls its record back. */
  function ExecuteFunction(w: World, request: Request, id: string, now: int, lookup: Stage<()>, run: Stage<Value>)
    : (World, Result<Response>)
  {
    if lookup.Raises? then (w, Err(Stopped(lookup.handled)))
    else
      var started := Started(request, Function, Running, "SAFETY_READ_ONLY", now);
      match run
      case Done(value) =>
        var done := started.(status := Success, completedAt := Some(now), result := Some(Data(value, [])));
        (w.(records := w.records[id := done]), Ok(Response(id, Success, done.result)))
      case Raises(handled) =>
        var failed := started.(status := Failed, completedAt := Some(now));
        (if handled then w.(records := w.records[id := failed]) else w, Err(Stopped(handled)))
  }

  // ── Batches ──

  datatype Item = Item(params: Row, id: string, now: int, attempt: Attempt)

  datatype ItemResult = ItemResult(index: nat, status: Status, id: Option<string>)

  datatype Summary = Summary(total: nat, successes: nat, failures: nat, results: seq<ItemResult>)

  /** The world, the results so far, and the exception that ends the batch early. */
  datatype Progress = Progress(world: World, results: seq<ItemResult>, stopped: bool)

  function ItemRequest(request: Request, item: Item): Request {
    request.(params := item.params)
  }

  function RunItem(p: Progress, request: Request, skip: bool, i: nat, item: Item): Progress {
    if p.stopped then p
    else
      var (w, r) := Execute(p.world, ItemRequest(request, item), skip, None, item.id, item.now, item.attempt);
      match r
      case Ok(response) => Progress(w, p.results + [ItemResult(i, response.status, Some(response.id))], false)
      case Err(Stopped(false)) => Progress(w, p.results, true)
      case Err(_) => Progress(w, p.results + [ItemResult(i, Failed, None)], false)
  }

  /** The first `k` items, in order. */
  function RunItems(w: World, request: Request, skip: bool, items: seq<Item>, k: nat): Progress
    requires k <= |items|
  {
    if k == 0 then Progress(w, [], false)
    else RunItem(RunItems(w, request, skip, items, k - 1), request, skip, k - 1, items[k - 1])
  }

  function CountSuccesses(results: seq<ItemResult>): nat {
    if results == [] then 0
    else CountSuccesses(results[..|results| - 1]) + if results[|results| - 1].status == Success then 1 else 0
  }

  // ── The service ──

  class FunctionService {
    var records: map<string, Record>
    var runs: seq<EngineRun>
    var tasks: seq<Task>

    constructor ()
      ensures State() == EMPTY
    {
      records, runs, tasks := map[], [], [];
    }

    function State(): World
      reads this
    {
      World(records, runs, tasks)
    }

    method ExecuteAction(request: Request, skip: bool, confirming: Option<string>, id: string, now: int, a: Attempt)
      returns (r: Result<Response>)
      modifies this
      ensures (State(), r) == Execute(old(State()), request, skip, confirming, id, now, a)
    {
      if a.level.Raises? {
        return Err(Stopped(a.level.handled));
      }
      if a.params.Raises? {
        return Err(Stopped(a.params.handled));
      }
      var level := a.level.value;
      if !skip && level !in DIRECT_EXECUTE_LEVELS {
        records := records[id := Started(request, Action, Pending, level, now)];
        return Ok(Response(id, Pending, None));
      }
      runs := runs + [EngineRun(request, level, skip, confirming, id, now)];
      if a.engine.Raises? {
        return Err(Stopped(a.engine.handled));
      }
      if a.writeback.Raises? {
        return Err(Stopped(a.writeback.handled));
      }
      var record := Started(request, Action, Success, level, now);
      records := records[id := record];
      LogComplete(request.tenant, id, Success, Some(Data(a.engine.value, a.writeback.value)), now,
                  if skip then Some(BY_COPILOT) else None, None);
      assert records == old(records)[id := records[id]];
      r := Ok(Response(id, Success, records[id].result));
    }

    /** Updates the tenant's record; absent values leave their fields alone. */
    method LogComplete(tenant: string, id: string, status: Status, result: Option<Outcome>, now: int,
                       confirmedBy: Option<string>, confirmedAt: Option<int>)
      modifies this`records
      ensures records ==
              match Find(old(State()), id, tenant)
              case None => old(records)
              case Some(was) =>
                old(records)[id := was.(status := status, completedAt := Some(now),
                                        result := if result.Some? then result else was.result,
                                        confirmedBy := if confirmedBy.Some? then confirmedBy else was.confirmedBy,
                                        confirmedAt := if confirmedAt.Some? then confirmedAt else was.confirmedAt)]
    {
      if id in records && records[id].tenant == tenant {
        var was := records[id];
        was := was.(status := status, completedAt := Some(now));
        if result.Some? { was := was.(result := result); }
        if confirmedBy.Some? { was := was.(confirmedBy := confirmedBy); }
        if confirmedAt.Some? { was := was.(confirmedAt := confirmedAt); }
        records := records[id := was];
      }
    }

    method ConfirmExecution(tenant: string, user: string, id: string, newId: string, now: int, a: Attempt)
      returns (r: Result<Response>)
      requires newId !in records
      modifies this
      ensures (State(), r) == Confirm(old(State()), tenant, user, id, newId, now, a)
    {
      if id !in records || records[id].tenant != tenant {
        return Err(NotFound);
      }
      var execution := records[id];
      if execution.status != Pending {
        return Err(InvalidInput);
      }
      if now > execution.startedAt + CONFIRMATION_TTL {
        LogComplete(tenant, id, Expired, None, now, None, None);
        return Err(ConfirmationExpired);
      }
      r := ExecuteAction(RequestOf(execution, tenant, user), true, Some(id), newId, now, a);
      if r.Err? {
        return;
      }
      LogComplete(tenant, id, Success, Some(DelegatedTo(r.value.id)), now, Some(BY_USER), Some(now));
    }

    method CancelExecution(tenant: string, id: string, now: int) returns (r: Result<Response>)
      modifies this
      ensures (State(), r) == Cancel(old(State()), tenant, id, now)
    {
      if id !in records || records[id].tenant != tenant {
        return Err(NotFound);
      }
      if records[id].status != Pending {
        return Err(InvalidInput);
      }
      LogComplete(tenant, id, Cancelled, None, now, None, None);
      r := Ok(Response(id, Cancelled, None));
    }

    method ExecuteActionAsync(request: Request, id: string, now: int) returns (r: Result<Response>)
      modifies this
      ensures (State(), r) == ExecuteAsync(old(State()), request, id, now)
    {
      records := records[id := Started(request, Action, Running, "unknown", now)];
      tasks := tasks + [Task(id, request)];
      r := Ok(Response(id, Running, None));
    }

    method RunInBackground(k: nat, newId: string, now: int, a: Attempt)
      requires k < |tasks|
      modifies this
      ensures State() == RunTask(old(State()), k, newId, now, a)
    {
      var task := tasks[k];
      tasks := tasks[..k] + tasks[k + 1..];
      var r := ExecuteAction(task.request, true, None, newId, now, a);
      if r.Ok? {
        LogComplete(task.request.tenant, task.id, Success, r.value.result, now, None, None);
      } else {
        LogComplete(task.request.tenant, task.id, Failed, Some(ErrorText), now, None, None);
      }
    }

    method ExecuteGlobalFunction(request: Request, id: string, now: int, lookup: Stage<()>, run: Stage<Value>)
      returns (r: Result<Response>)
      requires id !in records
      modifies this
      ensures (State(), r) == ExecuteFunction(old(State()), request, id, now, lookup, run)
    {
      if lookup.Raises? {
        return Err(Stopped(lookup.handled));
      }
      var before := records;
      records := records[id := Started(request, Function, Running, "SAFETY_READ_ONLY", now)];
      if run.Done? {
        LogComplete(request.tenant, id, Success, Some(Data(run.value, [])), now, None, None);
        assert records == before[id := records[id]];
        return Ok(Response(id, Success, records[id].result));
      }
      if run.handled {
        LogComplete(request.tenant, id, Failed, None, now, None, None);
        assert records == before[id := records[id]];
      } else {
        records := before;
      }
      r := Err(Stopped(run.handled));
    }

    method ExecuteActionBatch(request: Request, skip: bool, items: seq<Item>) returns (r: Result<Summary>)
      modifies this
      ensures var p := RunItems(old(State()), request, skip, items, |items|);
              && State() == p.world
              && (r.Err? <==> p.stopped) && (r.Err? ==> r.failure == Stopped(false))
              && (r.Ok? ==> r.value.results == p.results && r.value.total == |items|
                            && r.value.successes == CountSuccesses(p.results)
                            && r.value.successes + r.value.failures == r.value.total == |r.value.results|)
    {
      var results: seq<ItemResult> := [];
      var successes, failures := 0, 0;
      for i := 0 to |items|
        invariant RunItems(old(State()), request, skip, items, i) == Progress(State(), results, false)
        invariant successes == CountSuccesses(results)
        invariant successes + failures == |results| == i
      {
        var item := items[i];
        var result := ExecuteAction(ItemRequest(request, item), skip, None, item.id, item.now, item.attempt);
        match result {
          case Ok(response) =>
            CountOneMore(results, ItemResult(i, response.status, Some(response.id)));
            results := results + [ItemResult(i, response.status, Some(response.id))];
            if response.status == Success {
              successes := successes + 1;
            } else {
              failures := failures + 1;
            }
          case Err(failure) =>
            if failure == Stopped(false) {
              StoppedStays(old(State()), request, skip, items, i + 1);
              return Err(failure);
            }
            CountOneMore(results, ItemResult(i, Failed, None));
            results := results + [ItemResult(i, Failed, None)];
            failures := failures + 1;
        }
      }
      r := Ok(Summary(|items|, successes, failures, results));
    }
  }

  const EMPTY := World(map[], [], [])

  lemma CountOneMore(results: seq<ItemResult>, r: ItemResult)
    ensures CountSuccesses(results + [r]) == CountSuccesses(results) + if r.status == Success then 1 else 0
  {
    assert (results + [r])[..|results|] == results;
  }

  lemma {:induction false} StoppedFrom(w: World, request: Request, skip: bool, items: seq<Item>, k: nat, n: nat)
    requires k <= n <= |items| && RunItems(w, request, skip, items, k).stopped
    ensures RunItems(w, request, skip, items, n) == RunItems(w, request, skip, items, k)
  {
    if k < n { StoppedFrom(w, request, skip, items, k, n - 1); }
  }

  lemma StoppedStays(w: World, request: Request, skip: bool, items: seq<Item>, k: nat)
    requires k <= |items| && RunItems(w, request, skip, items, k).stopped
    ensures RunItems(w, request, skip, items, |items|) == RunItems(w, request, skip, items, k)
  {
    StoppedFrom(w, request, skip, items, k, |items|);
  }
}
