/** Entity lifecycle: drafts, staging, commits and rollbacks over the node store and the snapshot tables. */
module OntologyService {
  import opened Ordering
  import opened Sequences
  import opened OntologyGraph
  import opened RetriedPromotion

  datatype Change = Created | Updated | Deleted

  /** A row of the snapshot table; `data` holds each staged version without its underscore fields. */
  datatype Snapshot = Snapshot(id: string, parent: Option<string>, tenant: string, author: string,
                               changes: map<string, Change>, data: map<string, Node>)

  /** Everything the service works on. */
  datatype World = World(nodes: seq<Node>, locks: map<string, string>, committing: set<string>,
                         snapshots: seq<Snapshot>, pointers: map<string, string>)

  datatype Error =
    | DuplicateApiName | NotFound | LockRequired | LockConflict | ImmutableField | DependencyConflict
    | DraftNotFound | StagingNotFound | StagingEmpty | UncommittedChanges | PromotionFailed

  datatype Result<+T> = Ok(value: T) | Err(error: Error)

  // ── Version changes ──

  function Submitted(now: string): Node -> Node {
    (n: Node) => n.(isDraft := false, isStaging := true, owner := None, payload := n.payload["updated_at" := now])
  }

  function Reopened(user: string): Node -> Node {
    (n: Node) => n.(isStaging := false, isDraft := true, owner := Some(user))
  }

  function Edited(updates: map<string, string>, now: string): Node -> Node {
    (n: Node) => n.(payload := n.payload + updates + map["updated_at" := now])
  }

  /** The user's draft of an entity. */
  function DraftOf(kind: string, rid: string, tenant: string, user: string): Node -> bool {
    Matching(kind, rid, tenant, Some(true), None, Some(user))
  }

  function StagingOf(kind: string, rid: string, tenant: string): Node -> bool {
    Matching(kind, rid, tenant, None, Some(true), None)
  }

  function AnyVersion(kind: string, rid: string, tenant: string): Node -> bool {
    Matching(kind, rid, tenant, None, None, None)
  }

  function FreshDraft(kind: string, rid: string, tenant: string, user: string, props: map<string, string>, now: string)
    : Node
  {
    Node(kind, rid, tenant, true, false, true, Some(user), None, None,
         props + map["created_at" := now, "updated_at" := now])
  }

  function CloneDraft(source: Node, user: string, updates: map<string, string>, now: string): Node {
    source.(isDraft := true, isStaging := false, owner := Some(user), parent := source.snapshot,
            payload := source.payload + updates + map["updated_at" := now])
  }

  function DeletionDraft(active: Node, user: string, now: string): Node {
    active.(isDraft := true, isStaging := false, isActive := false, owner := Some(user), parent := active.snapshot,
            payload := active.payload["updated_at" := now])
  }

  const IMMUTABLE_FIELDS := {"rid", "api_name", "tenant_id", "created_at"}

  function ImmutableFields(kind: string): set<string> {
    IMMUTABLE_FIELDS +
    if kind == "LinkType" then {"source_object_type_rid", "target_object_type_rid"}
    else if kind == "InterfaceType" then {"category"}
    else if kind == "SharedPropertyType" then {"data_type"}
    else {}
  }

  function NamedActive(kind: string, tenant: string, name: string): Node -> bool {
    (n: Node) => n.kind == kind && LiveIn(n, tenant) && "api_name" in n.payload && n.payload["api_name"] == name
  }

  function NameOf(props: map<string, string>): string {
    if "api_name" in props then props["api_name"] else ""
  }

  // ── What each request does ──

  function Create(w: World, user: string, tenant: string, kind: string, props: map<string, string>, rid: string,
                  now: string): (World, Result<Node>)
  {
    if First(w.nodes, NamedActive(kind, tenant, NameOf(props))).Some? then (w, Err(DuplicateApiName))
    else
      var draft := FreshDraft(kind, rid, tenant, user, props, now);
      (w.(nodes := w.nodes + [draft]), Ok(draft))
  }

  predicate Holds(locks: map<string, string>, rid: string, user: string) {
    rid in locks && locks[rid] == user
  }

  function Update(w: World, user: string, tenant: string, kind: string, rid: string, updates: map<string, string>,
                  now: string): (World, Result<Node>)
  {
    if !Holds(w.locks, rid, user) then (w, Err(LockRequired))
    else if updates.Keys * ImmutableFields(kind) != {} then (w, Err(ImmutableField))
    else
      match First(w.nodes, DraftOf(kind, rid, tenant, user))
      case Some(draft) =>
        (w.(nodes := SetWhere(w.nodes, DraftOf(kind, rid, tenant, user), Edited(updates, now))),
         Ok(Edited(updates, now)(draft)))
      case None =>
        match SourceVersion(w.nodes, kind, rid, tenant)
        case None => (w, Err(NotFound))
        case Some(source) =>
          var draft := CloneDraft(source, user, updates, now);
          (w.(nodes := w.nodes + [draft]), Ok(draft))
  }

  /** Staging before active. */
  function SourceVersion(nodes: seq<Node>, kind: string, rid: string, tenant: string): Option<Node> {
    var staging := First(nodes, StagingOf(kind, rid, tenant));
    if staging.Some? then staging else First(nodes, ActiveVersion(kind, rid, tenant))
  }

  function Delete(w: World, user: string, tenant: string, kind: string, rid: string, referenced: bool, now: string)
    : (World, Result<()>)
  {
    if referenced then (w, Err(DependencyConflict))
    else if !Holds(w.locks, rid, user) then (w, Err(LockRequired))
    else
      match First(w.nodes, ActiveVersion(kind, rid, tenant))
      case Some(active) => (w.(nodes := w.nodes + [DeletionDraft(active, user, now)]), Ok(()))
      case None =>
        var p := if First(w.nodes, DraftOf(kind, rid, tenant, user)).Some? then DraftOf(kind, rid, tenant, user)
                 else StagingOf(kind, rid, tenant);
        (w.(nodes := Keep(w.nodes, Not(p))), Ok(()))
  }

  function Submit(w: World, user: string, tenant: string, kind: string, rid: string, now: string)
    : (World, Result<Node>)
  {
    match First(w.nodes, DraftOf(kind, rid, tenant, user))
    case None => (w, Err(DraftNotFound))
    case Some(draft) =>
      (w.(nodes := SetWhere(w.nodes, DraftOf(kind, rid, tenant, user), Submitted(now)),
          locks := w.locks - {rid}),
       Ok(Submitted(now)(draft)))
  }

  function DiscardDraft(w: World, user: string, tenant: string, kind: string, rid: string): (World, Result<()>) {
    if First(w.nodes, DraftOf(kind, rid, tenant, user)).None? then (w, Err(DraftNotFound))
    else (w.(nodes := Keep(w.nodes, Not(DraftOf(kind, rid, tenant, user))), locks := w.locks - {rid}), Ok(()))
  }

  function DiscardStaging(w: World, user: string, tenant: string, kind: string, rid: string): (World, Result<()>) {
    if First(w.nodes, StagingOf(kind, rid, tenant)).None? then (w, Err(StagingNotFound))
    else if First(w.nodes, ActiveVersion(kind, rid, tenant)).Some? then
      (w.(nodes := Keep(w.nodes, Not(StagingOf(kind, rid, tenant)))), Ok(()))
    else
      (w.(nodes := SetWhere(w.nodes, AnyVersion(kind, rid, tenant), Reopened(user))), Ok(()))
  }

  /** Staging nodes whose label and rid are not empty. */
  function Discardable(tenant: string): Node -> bool {
    (n: Node) => StagingIn(n, tenant) && n.kind != "" && n.rid != ""
  }

  function DiscardAll(w: World, tenant: string): (World, nat) {
    (w.(nodes := Keep(w.nodes, Not(Discardable(tenant)))), |Keep(w.nodes, Discardable(tenant))|)
  }

  // ── Commit ──

  predicate IsPublic(field: string) {
    field == "" || field[0] != '_'
  }

  function Public(payload: map<string, string>): map<string, string> {
    map f | f in payload && IsPublic(f) :: payload[f]
  }

  /** The stored copy of a version: no label, no underscore fields. */
  function Stored(n: Node): Node {
    n.(kind := "", payload := Public(n.payload))
  }

  function ChangeOf(nodes: seq<Node>, tenant: string, n: Node): Change {
    if !n.isActive then Deleted
    else if First(nodes, ActiveVersion(n.kind, n.rid, tenant)).Some? then Updated
    else Created
  }

  function ChangesOf(nodes: seq<Node>, tenant: string, staging: seq<Node>): map<string, Change> {
    if staging == [] then map[]
    else
      var last := staging[|staging| - 1];
      ChangesOf(nodes, tenant, staging[..|staging| - 1])[last.rid := ChangeOf(nodes, tenant, last)]
  }

  function DataOf(staging: seq<Node>): map<string, Node> {
    if staging == [] then map[]
    else
      var last := staging[|staging| - 1];
      var before := DataOf(staging[..|staging| - 1]);
      if last.rid == "" then before else before[last.rid := Stored(last)]
  }

  function PointerOf(pointers: map<string, string>, tenant: string): Option<string> {
    if tenant in pointers then Some(pointers[tenant]) else None
  }

  function SnapshotOf(w: World, user: string, tenant: string, id: string): Snapshot {
    var staging := Keep(w.nodes, Staged(tenant));
    Snapshot(id, PointerOf(w.pointers, tenant), tenant, user, ChangesOf(w.nodes, tenant, staging), DataOf(staging))
  }

  function Commit(w: World, user: string, tenant: string, id: string, script: Script): (World, Result<Snapshot>) {
    if tenant in w.committing then (w, Err(LockConflict))
    else if Keep(w.nodes, Staged(tenant)) == [] then (w, Err(StagingEmpty))
    else
      var snapshot := SnapshotOf(w, user, tenant, id);
      var n := DEFAULT_MAX_RETRIES + 1;
      var nodes := AfterAttempts(w.nodes, tenant, id, script, Tries(script, n, 0));
      if ResultOf(script, n) == Succeeded then
        (w.(nodes := nodes, snapshots := w.snapshots + [snapshot], pointers := w.pointers[tenant := id]), Ok(snapshot))
      else (w.(nodes := nodes), Err(PromotionFailed))
  }

  // ── Rollback ──

  function Find(snapshots: seq<Snapshot>, id: string): Option<Snapshot> {
    if snapshots == [] then None
    else if snapshots[|snapshots| - 1].id == id then Some(snapshots[|snapshots| - 1])
    else Find(snapshots[..|snapshots| - 1], id)
  }

  predicate Uncommitted(nodes: seq<Node>, tenant: string) {
    exists n :: n in nodes && n.tenant == tenant && (n.isDraft || n.isStaging)
  }

  function Rollback(w: World, tenant: string, id: string): (World, Result<Snapshot>) {
    if Uncommitted(w.nodes, tenant) then (w, Err(UncommittedChanges))
    else
      match Find(w.snapshots, id)
      case None => (w, Err(NotFound))
      case Some(snapshot) =>
        var current := if tenant in w.pointers then w.pointers[tenant] else "";
        (w.(nodes := RollbackNodes(w.nodes, tenant, id, current), pointers := w.pointers[tenant := id]),
         Ok(snapshot))
  }

  // ── The service ──

  class Service {
    const graph: GraphRepository
    var locks: map<string, string>
    var committing: set<string>
    var snapshots: seq<Snapshot>
    var pointers: map<string, string>

    constructor ()
      ensures fresh(graph) && State() == World([], map[], {}, [], map[])
    {
      graph := new GraphRepository();
      locks, committing, snapshots, pointers := map[], {}, [], map[];
    }

    function State(): World
      reads this, graph
    {
      World(graph.nodes, locks, committing, snapshots, pointers)
    }

    method CreateEntity(user: string, tenant: string, kind: string, props: map<string, string>, rid: string,
                        now: string) returns (r: Result<Node>)
      modifies this, graph
      ensures (State(), r) == Create(old(State()), user, tenant, kind, props, rid, now)
    {
      if First(graph.nodes, NamedActive(kind, tenant, NameOf(props))).Some? {
        return Err(DuplicateApiName);
      }
      var draft := FreshDraft(kind, rid, tenant, user, props, now);
      graph.CreateNode(draft);
      r := Ok(draft);
    }

    method UpdateEntity(user: string, tenant: string, kind: string, rid: string, updates: map<string, string>,
                        now: string) returns (r: Result<Node>)
      modifies this, graph
      ensures (State(), r) == Update(old(State()), user, tenant, kind, rid, updates, now)
    {
      if !Holds(locks, rid, user) {
        return Err(LockRequired);
      }
      if updates.Keys * ImmutableFields(kind) != {} {
        return Err(ImmutableField);
      }
      var draft := graph.GetDraftNode(kind, rid, tenant, user);
      if draft.None? {
        var source := graph.GetStagingNode(kind, rid, tenant);
        if source.None? {
          source := graph.GetActiveNode(kind, rid, tenant);
        }
        if source.None? {
          return Err(NotFound);
        }
        var clone := CloneDraft(source.value, user, updates, now);
        graph.CreateNode(clone);
        r := Ok(clone);
      } else {
        var updated := graph.UpdateNode(DraftOf(kind, rid, tenant, user), Edited(updates, now));
        if updated.None? {
          return Err(NotFound);
        }
        r := Ok(updated.value);
      }
    }

    method DeleteEntity(user: string, tenant: string, kind: string, rid: string, referenced: bool, now: string)
      returns (r: Result<()>)
      modifies this, graph
      ensures (State(), r) == Delete(old(State()), user, tenant, kind, rid, referenced, now)
    {
      if referenced {
        return Err(DependencyConflict);
      }
      if !Holds(locks, rid, user) {
        return Err(LockRequired);
      }
      var active := graph.GetActiveNode(kind, rid, tenant);
      if active.Some? {
        graph.CreateNode(DeletionDraft(active.value, user, now));
      } else {
        DeleteNothing(graph.nodes, DraftOf(kind, rid, tenant, user));
        var deleted := graph.DeleteNode(DraftOf(kind, rid, tenant, user));
        if !deleted {
          var _ := graph.DeleteNode(StagingOf(kind, rid, tenant));
        }
      }
      r := Ok(());
    }

    method SubmitToStaging(user: string, tenant: string, kind: string, rid: string, now: string)
      returns (r: Result<Node>)
      modifies this, graph
      ensures (State(), r) == Submit(old(State()), user, tenant, kind, rid, now)
    {
      var draft := graph.GetDraftNode(kind, rid, tenant, user);
      if draft.None? {
        return Err(DraftNotFound);
      }
      var node := graph.UpdateNode(DraftOf(kind, rid, tenant, user), Submitted(now));
      if node.None? {
        return Err(DraftNotFound);
      }
      locks := locks - {rid};
      r := Ok(node.value);
    }

    method DiscardDraftVersion(user: string, tenant: string, kind: string, rid: string) returns (r: Result<()>)
      modifies this, graph
      ensures (State(), r) == DiscardDraft(old(State()), user, tenant, kind, rid)
    {
      DeleteNothing(graph.nodes, DraftOf(kind, rid, tenant, user));
      var deleted := graph.DeleteNode(DraftOf(kind, rid, tenant, user));
      if !deleted {
        return Err(DraftNotFound);
      }
      locks := locks - {rid};
      r := Ok(());
    }

    method DiscardStagingVersion(user: string, tenant: string, kind: string, rid: string) returns (r: Result<()>)
      modifies this, graph
      ensures (State(), r) == DiscardStaging(old(State()), user, tenant, kind, rid)
    {
      var active := graph.GetActiveNode(kind, rid, tenant);
      if active.Some? {
        DeleteNothing(graph.nodes, StagingOf(kind, rid, tenant));
        var deleted := graph.DeleteNode(StagingOf(kind, rid, tenant));
        if !deleted {
          return Err(StagingNotFound);
        }
      } else {
        var staging := graph.GetStagingNode(kind, rid, tenant);
        if staging.None? {
          return Err(StagingNotFound);
        }
        var _ := graph.UpdateNode(AnyVersion(kind, rid, tenant), Reopened(user));
      }
      r := Ok(());
    }

    method DiscardAllStaging(tenant: string) returns (count: nat)
      modifies this, graph
      ensures (State(), count) == DiscardAll(old(State()), tenant)
    {
      var staging := graph.GetStagingNodes(tenant);
      count := 0;
      assert Keep(graph.nodes, Not(DiscardedBy(tenant, staging[..0]))) == graph.nodes by {
        KeepEverything(graph.nodes, Not(DiscardedBy(tenant, staging[..0])));
      }
      for i := 0 to |staging|
        invariant graph.nodes == Keep(old(graph.nodes), Not(DiscardedBy(tenant, staging[..i])))
        invariant count == |Keep(staging[..i], Discardable(tenant))|
        invariant locks == old(locks) && committing == old(committing)
        invariant snapshots == old(snapshots) && pointers == old(pointers)
      {
        var n := staging[i];
        NextStaged(old(graph.nodes), tenant, i);
        DiscardOneMore(old(graph.nodes), tenant, staging[..i], n);
        if n.kind != "" && n.rid != "" {
          var _ := graph.DeleteNode(StagingOf(n.kind, n.rid, tenant));
          count := count + 1;
        }
      }
      assert staging[..|staging|] == staging;
      DiscardedEverything(old(graph.nodes), tenant);
    }

    method EntityChanges(tenant: string, staging: seq<Node>) returns (changes: map<string, Change>)
      ensures changes == ChangesOf(graph.nodes, tenant, staging)
    {
      changes := map[];
      for i := 0 to |staging|
        invariant changes == ChangesOf(graph.nodes, tenant, staging[..i])
      {
        var n := staging[i];
        assert staging[..i + 1][..i] == staging[..i];
        if n.isActive {
          var active := graph.GetActiveNode(n.kind, n.rid, tenant);
          changes := changes[n.rid := if active.Some? then Updated else Created];
        } else {
          changes := changes[n.rid := Deleted];
        }
      }
      assert staging[..|staging|] == staging;
    }

    static method EntityData(staging: seq<Node>) returns (data: map<string, Node>)
      ensures data == DataOf(staging)
    {
      data := map[];
      for i := 0 to |staging|
        invariant data == DataOf(staging[..i])
      {
        var n := staging[i];
        assert staging[..i + 1][..i] == staging[..i];
        if n.rid != "" {
          data := data[n.rid := Stored(n)];
        }
      }
      assert staging[..|staging|] == staging;
    }

    method CommitStaging(user: string, tenant: string, id: string, script: Script) returns (r: Result<Snapshot>)
      modifies this, graph
      ensures (State(), r) == Commit(old(State()), user, tenant, id, script)
    {
      if tenant in committing {
        return Err(LockConflict);
      }
      ghost var before := committing;
      committing := committing + {tenant};
      var staging := graph.GetStagingNodes(tenant);
      if staging == [] {
        committing := committing - {tenant};
        assert committing == before;
        return Err(StagingEmpty);
      }
      var changes := EntityChanges(tenant, staging);
      var data := EntityData(staging);
      var snapshot := Snapshot(id, PointerOf(pointers, tenant), tenant, user, changes, data);
      var result, _, _ := Retry(graph, tenant, id, script, DEFAULT_MAX_RETRIES, DEFAULT_BASE_DELAY, DEFAULT_MAX_DELAY);
      committing := committing - {tenant};
      assert committing == before;
      if result != Succeeded {
        return Err(PromotionFailed);
      }
      snapshots := snapshots + [snapshot];
      pointers := pointers[tenant := id];
      r := Ok(snapshot);
    }

    method RollbackToSnapshot(tenant: string, id: string) returns (r: Result<Snapshot>)
      modifies this, graph
      ensures (State(), r) == Rollback(old(State()), tenant, id)
    {
      var changed := graph.HasUncommittedChanges(tenant);
      if changed {
        return Err(UncommittedChanges);
      }
      var snapshot := Find(snapshots, id);
      if snapshot.None? {
        return Err(NotFound);
      }
      var current := if tenant in pointers then pointers[tenant] else "";
      graph.RollbackToSnapshot(tenant, id, current);
      pointers := pointers[tenant := id];
      r := Ok(snapshot.value);
    }
  }

  lemma DeleteNothing(nodes: seq<Node>, p: Node -> bool)
    ensures First(nodes, p).None? ==> Keep(nodes, Not(p)) == nodes
  {
    if First(nodes, p).None? { KeepEverything(nodes, Not(p)); }
  }

  // ── Discarding one by one ──

  /** Discardable nodes that share label and rid with a listed one. */
  predicate SharesKey(tenant: string, listed: seq<Node>, n: Node) {
    Discardable(tenant)(n) && exists m :: m in listed && m.kind == n.kind && m.rid == n.rid
  }

  function DiscardedBy(tenant: string, listed: seq<Node>): Node -> bool {
    (n: Node) => SharesKey(tenant, listed, n)
  }

  lemma SharesKeyAppend(tenant: string, listed: seq<Node>, n: Node, m: Node)
    ensures SharesKey(tenant, listed + [n], m) <==>
            SharesKey(tenant, listed, m) || (Discardable(tenant)(m) && n.kind == m.kind && n.rid == m.rid)
  {
    assert n in listed + [n];
    forall x | x in listed ensures x in listed + [n] {}
  }

  lemma DiscardOneMore(nodes: seq<Node>, tenant: string, listed: seq<Node>, n: Node)
    requires StagingIn(n, tenant)
    ensures var rest := Keep(nodes, Not(DiscardedBy(tenant, listed)));
            Keep(nodes, Not(DiscardedBy(tenant, listed + [n])))
            == if n.kind != "" && n.rid != "" then Keep(rest, Not(StagingOf(n.kind, n.rid, tenant))) else rest
  {
    var p, r := Not(DiscardedBy(tenant, listed)), Not(DiscardedBy(tenant, listed + [n]));
    if n.kind != "" && n.rid != "" {
      var q := Not(StagingOf(n.kind, n.rid, tenant));
      forall m | m in nodes ensures r(m) == (p(m) && q(m)) {
        SharesKeyAppend(tenant, listed, n, m);
      }
      KeepTwice(nodes, p, q, r);
    } else {
      forall m | m in nodes ensures p(m) == r(m) {
        SharesKeyAppend(tenant, listed, n, m);
      }
      KeepSame(nodes, p, r);
    }
  }

  lemma NextStaged(nodes: seq<Node>, tenant: string, i: nat)
    requires i < |Keep(nodes, Staged(tenant))|
    ensures var staging := Keep(nodes, Staged(tenant));
            && StagingIn(staging[i], tenant) && staging[..i + 1] == staging[..i] + [staging[i]]
            && |Keep(staging[..i + 1], Discardable(tenant))|
               == |Keep(staging[..i], Discardable(tenant))| + if Discardable(tenant)(staging[i]) then 1 else 0
  {
    var staging := Keep(nodes, Staged(tenant));
    KeepMembers(nodes, Staged(tenant));
    assert staging[i] in staging && staging[..i + 1] == staging[..i] + [staging[i]];
    KeepAppend(staging[..i], staging[i], Discardable(tenant));
  }

  lemma {:induction false} DiscardedEverything(nodes: seq<Node>, tenant: string)
    ensures var staging := Keep(nodes, Staged(tenant));
            && Keep(nodes, Not(DiscardedBy(tenant, staging))) == Keep(nodes, Not(Discardable(tenant)))
            && Keep(staging, Discardable(tenant)) == Keep(nodes, Discardable(tenant))
  {
    var staging := Keep(nodes, Staged(tenant));
    KeepMembers(nodes, Staged(tenant));
    KeepSame(nodes, Not(DiscardedBy(tenant, staging)), Not(Discardable(tenant)));
    KeepTwice(nodes, Staged(tenant), Discardable(tenant), Discardable(tenant));
  }
}
