/** Runs of lifecycle requests: what edits leave alone, and what every state satisfies. */
module OntologyRuns {
  import opened Sequences
  import opened OntologyGraph
  import opened RetriedPromotion
  import opened OntologyService

  // ── Runs ──

  datatype Step =
    | CreateStep(user: string, tenant: string, kind: string, props: map<string, string>, rid: string, now: string)
    | UpdateStep(user: string, tenant: string, kind: string, rid: string, updates: map<string, string>, now: string)
    | DeleteStep(user: string, tenant: string, kind: string, rid: string, referenced: bool, now: string)
    | SubmitStep(user: string, tenant: string, kind: string, rid: string, now: string)
    | DiscardDraftStep(user: string, tenant: string, kind: string, rid: string)
    | DiscardStagingStep(user: string, tenant: string, kind: string, rid: string)
    | DiscardAllStep(tenant: string)
    | LocksStep(locks: map<string, string>, committing: set<string>)
    | CommitStep(user: string, tenant: string, id: string, script: Script)
    | RollbackStep(tenant: string, id: string)

  function After(w: World, s: Step): World {
    match s
    case CreateStep(_, _, _, _, _, _) => AfterCreate(w, s)
    case UpdateStep(_, _, _, _, _, _) => AfterUpdate(w, s)
    case DeleteStep(_, _, _, _, _, _) => AfterDelete(w, s)
    case SubmitStep(_, _, _, _, _) => AfterSubmit(w, s)
    case DiscardDraftStep(_, _, _, _) => AfterDiscardDraft(w, s)
    case DiscardStagingStep(_, _, _, _) => AfterDiscardStaging(w, s)
    case DiscardAllStep(_) => AfterDiscardAll(w, s)
    case LocksStep(locks, committing) => w.(locks := locks, committing := committing)
    case CommitStep(_, _, _, _) => AfterCommit(w, s)
    case RollbackStep(_, _) => AfterRollback(w, s)
  }

  function AfterCreate(w: World, s: Step): World
    requires s.CreateStep?
  {
    Create(w, s.user, s.tenant, s.kind, s.props, s.rid, s.now).0
  }

  function AfterUpdate(w: World, s: Step): World
    requires s.UpdateStep?
  {
    Update(w, s.user, s.tenant, s.kind, s.rid, s.updates, s.now).0
  }

  function AfterDelete(w: World, s: Step): World
    requires s.DeleteStep?
  {
    Delete(w, s.user, s.tenant, s.kind, s.rid, s.referenced, s.now).0
  }

  function AfterSubmit(w: World, s: Step): World
    requires s.SubmitStep?
  {
    Submit(w, s.user, s.tenant, s.kind, s.rid, s.now).0
  }

  function AfterDiscardDraft(w: World, s: Step): World
    requires s.DiscardDraftStep?
  {
    DiscardDraft(w, s.user, s.tenant, s.kind, s.rid).0
  }

  function AfterDiscardStaging(w: World, s: Step): World
    requires s.DiscardStagingStep?
  {
    DiscardStaging(w, s.user, s.tenant, s.kind, s.rid).0
  }

  function AfterDiscardAll(w: World, s: Step): World
    requires s.DiscardAllStep?
  {
    DiscardAll(w, s.tenant).0
  }

  function AfterCommit(w: World, s: Step): World
    requires s.CommitStep?
  {
    Commit(w, s.user, s.tenant, s.id, s.script).0
  }

  function AfterRollback(w: World, s: Step): World
    requires s.RollbackStep?
  {
    Rollback(w, s.tenant, s.id).0
  }

  function AfterAll(w: World, steps: seq<Step>): World {
    if steps == [] then w else After(AfterAll(w, steps[..|steps| - 1]), steps[|steps| - 1])
  }

  predicate IsEdit(s: Step) {
    !s.CommitStep? && !s.RollbackStep?
  }

  // ── Isolation ──

  function LiveNodes(w: World): seq<Node> {
    Keep(w.nodes, LiveNode())
  }

  lemma CreateKeepsLive(w: World, s: Step)
    requires s.CreateStep?
    ensures LiveNodes(After(w, s)) == LiveNodes(w)
  {
    KeepAppend(w.nodes, FreshDraft(s.kind, s.rid, s.tenant, s.user, s.props, s.now), LiveNode());
  }

  lemma UpdateKeepsLive(w: World, s: Step)
    requires s.UpdateStep?
    ensures LiveNodes(After(w, s)) == LiveNodes(w)
  {
    var source := SourceVersion(w.nodes, s.kind, s.rid, s.tenant);
    if First(w.nodes, DraftOf(s.kind, s.rid, s.tenant, s.user)).Some? {
      KeepIgnoresSet(w.nodes, DraftOf(s.kind, s.rid, s.tenant, s.user), Edited(s.updates, s.now), LiveNode());
    } else if source.Some? { KeepAppend(w.nodes, CloneDraft(source.value, s.user, s.updates, s.now), LiveNode()); }
  }

  lemma DeleteKeepsLive(w: World, s: Step)
    requires s.DeleteStep?
    ensures LiveNodes(After(w, s)) == LiveNodes(w)
  {
    var active := First(w.nodes, ActiveVersion(s.kind, s.rid, s.tenant));
    if active.Some? {
      KeepAppend(w.nodes, DeletionDraft(active.value, s.user, s.now), LiveNode());
    } else if First(w.nodes, DraftOf(s.kind, s.rid, s.tenant, s.user)).Some? {
      KeepIgnoresDelete(w.nodes, DraftOf(s.kind, s.rid, s.tenant, s.user), LiveNode());
    } else {
      KeepIgnoresDelete(w.nodes, StagingOf(s.kind, s.rid, s.tenant), LiveNode());
    }
  }

  lemma SubmitKeepsLive(w: World, s: Step)
    requires s.SubmitStep?
    ensures LiveNodes(After(w, s)) == LiveNodes(w)
  {
    KeepIgnoresSet(w.nodes, DraftOf(s.kind, s.rid, s.tenant, s.user), Submitted(s.now), LiveNode());
  }

  lemma DiscardKeepsLive(w: World, s: Step)
    requires s.DiscardDraftStep? || s.DiscardStagingStep? || s.DiscardAllStep?
    ensures LiveNodes(After(w, s)) == LiveNodes(w)
  {
    match s
    case DiscardDraftStep(user, tenant, kind, rid) =>
      KeepIgnoresDelete(w.nodes, DraftOf(kind, rid, tenant, user), LiveNode());
    case DiscardStagingStep(user, tenant, kind, rid) =>
      KeepIgnoresDelete(w.nodes, StagingOf(kind, rid, tenant), LiveNode());
      if First(w.nodes, ActiveVersion(kind, rid, tenant)).None? {
        KeepIgnoresSet(w.nodes, AnyVersion(kind, rid, tenant), Reopened(user), LiveNode());
      }
    case DiscardAllStep(tenant) =>
      KeepIgnoresDelete(w.nodes, Discardable(tenant), LiveNode());
  }

  lemma EditKeepsSnapshots(w: World, s: Step)
    requires IsEdit(s)
    ensures After(w, s).snapshots == w.snapshots && After(w, s).pointers == w.pointers
  {
  }

  /** No edit, by anyone, touches the live nodes or the published history. */
  lemma EditKeepsLive(w: World, s: Step)
    requires IsEdit(s)
    ensures LiveNodes(After(w, s)) == LiveNodes(w)
    ensures After(w, s).snapshots == w.snapshots && After(w, s).pointers == w.pointers
  {
    EditKeepsSnapshots(w, s);
    match s
    case CreateStep(_, _, _, _, _, _) => CreateKeepsLive(w, s);
    case UpdateStep(_, _, _, _, _, _) => UpdateKeepsLive(w, s);
    case DeleteStep(_, _, _, _, _, _) => DeleteKeepsLive(w, s);
    case SubmitStep(_, _, _, _, _) => SubmitKeepsLive(w, s);
    case DiscardDraftStep(_, _, _, _) => DiscardKeepsLive(w, s);
    case DiscardStagingStep(_, _, _, _) => DiscardKeepsLive(w, s);
    case DiscardAllStep(_) => DiscardKeepsLive(w, s);
    case LocksStep(_, _) =>
  }

  lemma {:induction false} EditsKeepLive(w: World, steps: seq<Step>)
    requires forall s :: s in steps ==> IsEdit(s)
    ensures LiveNodes(AfterAll(w, steps)) == LiveNodes(w)
    ensures AfterAll(w, steps).snapshots == w.snapshots && AfterAll(w, steps).pointers == w.pointers
  {
    if steps == [] {
    } else {
      var front := steps[..|steps| - 1];
      assert steps[|steps| - 1] in steps && forall s :: s in front ==> s in steps;
      EditsKeepLive(w, front);
      EditKeepsLive(AfterAll(w, front), steps[|steps| - 1]);
    }
  }

  /** Whatever is edited, discarded or submitted, every active read answers as before. */
  lemma {:induction false} ActiveReadsAreIsolated(w: World, steps: seq<Step>, kind: string, rid: string, tenant: string)
    requires forall s :: s in steps ==> IsEdit(s)
    ensures First(AfterAll(w, steps).nodes, ActiveVersion(kind, rid, tenant))
         == First(w.nodes, ActiveVersion(kind, rid, tenant))
  {
    EditsKeepLive(w, steps);
    FirstAmongLive(w.nodes, ActiveVersion(kind, rid, tenant));
    FirstAmongLive(AfterAll(w, steps).nodes, ActiveVersion(kind, rid, tenant));
  }

  // ── What versions look like ──

  function Ids(snapshots: seq<Snapshot>): set<string> {
    set s | s in snapshots :: s.id
  }

  /** Never both draft and staging; an owner exactly for drafts; a real label and rid. */
  predicate Tidy(n: Node) {
    !(n.isDraft && n.isStaging) && (n.isDraft <==> n.owner.Some?) && n.kind != "" && n.rid != ""
  }

  /** A committed version stamped with the tenant's current snapshot is active. */
  predicate CurrentIsActive(n: Node, pointers: map<string, string>) {
    !n.isDraft && !n.isStaging && n.snapshot.Some? && PointerOf(pointers, n.tenant) == n.snapshot ==> n.isActive
  }

  predicate StampKnown(n: Node, snapshots: seq<Snapshot>) {
    n.snapshot.Some? ==> n.snapshot.value in Ids(snapshots)
  }

  predicate NodeOk(n: Node, w: World) {
    Tidy(n) && CurrentIsActive(n, w.pointers) && StampKnown(n, w.snapshots)
  }

  /** Versions of one entity carry one label. */
  ghost predicate OneKind(nodes: seq<Node>) {
    forall m, n :: m in nodes && n in nodes && SameEntity(m, n) ==> m.kind == n.kind
  }

  /** Holds in every state of every run, failed promotions and rollbacks included. */
  ghost predicate AllTidy(nodes: seq<Node>) {
    (forall n :: n in nodes ==> Tidy(n)) && OneKind(nodes)
  }

  /** Holds in every state of every run whose promotions get through, rollbacks included. */
  ghost predicate Sound(w: World) {
    && (forall n :: n in w.nodes ==> NodeOk(n, w))
    && OneKind(w.nodes)
    && (forall t :: t in w.pointers ==> w.pointers[t] in Ids(w.snapshots))
  }

  /** A new entity has a real label and a rid of its own. */
  ghost predicate FreshRid(w: World, s: Step) {
    s.CreateStep? ==> s.kind != "" && s.rid != "" && forall n :: n in w.nodes ==> n.rid != s.rid
  }

  /** Generated ids are new, and a commit's promotion gets through its retries. */
  ghost predicate Admissible(w: World, s: Step) {
    && FreshRid(w, s)
    && (s.CommitStep? ==> s.id !in Ids(w.snapshots) && ResultOf(s.script, DEFAULT_MAX_RETRIES + 1) == Succeeded)
  }

  // ── Where nodes come from ──

  /** A version of the same entity, tidy if `m` was. */
  predicate Derived(m: Node, n: Node) {
    SameEntity(m, n) && m.kind == n.kind && (Tidy(m) ==> Tidy(n))
  }

  /** Unchanged, or work in progress with the stamp of `m`. */
  predicate Reworked(m: Node, n: Node) {
    Derived(m, n) && m.snapshot == n.snapshot && (n == m || n.isDraft || n.isStaging)
  }

  ghost predicate FromOld(nodes: seq<Node>, n: Node) {
    exists m :: m in nodes && Derived(m, n)
  }

  ghost predicate Rework(nodes: seq<Node>, n: Node) {
    exists m :: m in nodes && Reworked(m, n)
  }

  lemma ReworkAfterSet(nodes: seq<Node>, p: Node -> bool, f: Node -> Node)
    requires forall m :: m in nodes && p(m) ==> Reworked(m, f(m))
    ensures forall n :: n in SetWhere(nodes, p, f) ==> Rework(nodes, n)
  {
    forall n | n in SetWhere(nodes, p, f) ensures Rework(nodes, n) {
      var i :| 0 <= i < |nodes| && SetWhere(nodes, p, f)[i] == n;
      assert nodes[i] in nodes && Reworked(nodes[i], n);
    }
  }

  lemma ReworkAfterKeep(nodes: seq<Node>, p: Node -> bool)
    ensures forall n :: n in Keep(nodes, p) ==> Rework(nodes, n)
  {
    KeepMembers(nodes, p);
    forall n | n in Keep(nodes, p) ensures Rework(nodes, n) {
      assert Reworked(n, n);
    }
  }

  lemma ReworkAfterAppend(nodes: seq<Node>, m: Node, n: Node)
    requires m in nodes && Reworked(m, n)
    ensures forall x :: x in nodes + [n] ==> Rework(nodes, x)
  {
    forall x | x in nodes + [n] ensures Rework(nodes, x) {
      assert x in nodes ==> Reworked(x, x);
    }
  }

  lemma UpdateReworks(w: World, s: Step)
    requires s.UpdateStep? && After(w, s).nodes != w.nodes
    ensures forall n :: n in After(w, s).nodes ==> Rework(w.nodes, n)
  {
    if First(w.nodes, DraftOf(s.kind, s.rid, s.tenant, s.user)).Some? {
      ReworkAfterSet(w.nodes, DraftOf(s.kind, s.rid, s.tenant, s.user), Edited(s.updates, s.now));
    } else {
      var source := SourceVersion(w.nodes, s.kind, s.rid, s.tenant).value;
      ReworkAfterAppend(w.nodes, source, CloneDraft(source, s.user, s.updates, s.now));
    }
  }

  lemma DeleteReworks(w: World, s: Step)
    requires s.DeleteStep? && After(w, s).nodes != w.nodes
    ensures forall n :: n in After(w, s).nodes ==> Rework(w.nodes, n)
  {
    var active := First(w.nodes, ActiveVersion(s.kind, s.rid, s.tenant));
    if active.Some? {
      ReworkAfterAppend(w.nodes, active.value, DeletionDraft(active.value, s.user, s.now));
    } else if First(w.nodes, DraftOf(s.kind, s.rid, s.tenant, s.user)).Some? {
      ReworkAfterKeep(w.nodes, Not(DraftOf(s.kind, s.rid, s.tenant, s.user)));
    } else {
      ReworkAfterKeep(w.nodes, Not(StagingOf(s.kind, s.rid, s.tenant)));
    }
  }

  lemma DiscardReworks(w: World, s: Step)
    requires s.DiscardDraftStep? || s.DiscardStagingStep? || s.DiscardAllStep?
    requires After(w, s).nodes != w.nodes
    ensures forall n :: n in After(w, s).nodes ==> Rework(w.nodes, n)
  {
    match s
    case DiscardDraftStep(user, tenant, kind, rid) =>
      ReworkAfterKeep(w.nodes, Not(DraftOf(kind, rid, tenant, user)));
    case DiscardStagingStep(user, tenant, kind, rid) =>
      if First(w.nodes, ActiveVersion(kind, rid, tenant)).Some? {
        ReworkAfterKeep(w.nodes, Not(StagingOf(kind, rid, tenant)));
      } else {
        ReworkAfterSet(w.nodes, AnyVersion(kind, rid, tenant), Reopened(user));
      }
    case DiscardAllStep(tenant) =>
      ReworkAfterKeep(w.nodes, Not(Discardable(tenant)));
  }

  /** After an edit that creates no entity, every node is an old one, or work in progress on an old one. */
  lemma EditReworks(w: World, s: Step)
    requires IsEdit(s) && !s.CreateStep?
    ensures forall n :: n in After(w, s).nodes ==> Rework(w.nodes, n)
  {
    if After(w, s).nodes == w.nodes {
      forall n | n in w.nodes ensures Rework(w.nodes, n) { assert Reworked(n, n); }
    } else {
      match s
      case UpdateStep(_, _, _, _, _, _) => UpdateReworks(w, s);
      case DeleteStep(_, _, _, _, _, _) => DeleteReworks(w, s);
      case SubmitStep(user, tenant, kind, rid, now) =>
        ReworkAfterSet(w.nodes, DraftOf(kind, rid, tenant, user), Submitted(now));
      case _ => DiscardReworks(w, s);
    }
  }

  /** Every node of `nodes'` derives from one of `nodes`. */
  ghost predicate AllFromOld(nodes: seq<Node>, nodes': seq<Node>) {
    forall n :: n in nodes' ==> FromOld(nodes, n)
  }

  lemma DerivesAfterSet(nodes: seq<Node>, p: Node -> bool, f: Node -> Node)
    requires forall m :: p(m) ==> Derived(m, f(m))
    ensures AllFromOld(nodes, SetWhere(nodes, p, f))
  {
    forall n | n in SetWhere(nodes, p, f) ensures FromOld(nodes, n) {
      var i :| 0 <= i < |nodes| && SetWhere(nodes, p, f)[i] == n;
      assert nodes[i] in nodes && Derived(nodes[i], n);
    }
  }

  lemma DerivesAfterKeep(nodes: seq<Node>, p: Node -> bool)
    ensures AllFromOld(nodes, Keep(nodes, p))
  {
    KeepMembers(nodes, p);
    forall n | n in Keep(nodes, p) ensures FromOld(nodes, n) {
      assert Derived(n, n);
    }
  }

  lemma DerivesFromItself(nodes: seq<Node>)
    ensures AllFromOld(nodes, nodes)
  {
    forall n | n in nodes ensures FromOld(nodes, n) {
      assert Derived(n, n);
    }
  }

  lemma DerivesTransitively(a: seq<Node>, b: seq<Node>, c: seq<Node>)
    requires AllFromOld(a, b) && AllFromOld(b, c)
    ensures AllFromOld(a, c)
  {
    forall n | n in c ensures FromOld(a, n) {
      var m :| m in b && Derived(m, n);
      var l :| l in a && Derived(l, m);
      assert Derived(l, n);
    }
  }

  /** However far the attempts at a promotion get, every node derives from an old one. */
  lemma PrefixDerives(nodes: seq<Node>, tenant: string, id: string, k: nat)
    ensures AllFromOld(nodes, PromotePrefix(nodes, tenant, id, k))
  {
    var d := Deactivate(nodes, tenant);
    var g := PromoteNodes(d, tenant, id);
    DerivesFromItself(nodes);
    DerivesAfterSet(nodes, Superseded(StagingRids(nodes, tenant), tenant), SetInactive());
    DerivesAfterSet(d, Staged(tenant), Stamp(id));
    DerivesTransitively(nodes, d, g);
    DerivesAfterKeep(g, Not(Stamped(tenant, id, false)));
    DerivesTransitively(nodes, g, Cleanup(g, tenant, id));
  }

  lemma RollbackDerives(nodes: seq<Node>, tenant: string, target: string, current: string)
    ensures AllFromOld(nodes, RollbackNodes(nodes, tenant, target, current))
  {
    var off := SetWhere(nodes, Stamped(tenant, current, true), SetInactive());
    DerivesAfterSet(nodes, Stamped(tenant, current, true), SetInactive());
    DerivesAfterSet(off, StampedAny(tenant, target), SetActive());
    DerivesTransitively(nodes, off, RollbackNodes(nodes, tenant, target, current));
  }

  /** Every step but a creation derives all its nodes from old ones, whatever becomes of a promotion. */
  lemma StepDerives(w: World, s: Step)
    requires !s.CreateStep?
    ensures AllFromOld(w.nodes, After(w, s).nodes)
  {
    DerivesFromItself(w.nodes);
    if IsEdit(s) {
      EditReworks(w, s);
      forall n | n in After(w, s).nodes ensures FromOld(w.nodes, n) {
        var m :| m in w.nodes && Reworked(m, n);
      }
    } else if s.CommitStep? {
      PrefixDerives(w.nodes, s.tenant, s.id, Furthest(s.script, Tries(s.script, DEFAULT_MAX_RETRIES + 1, 0)));
    } else {
      RollbackDerives(w.nodes, s.tenant, s.id, if s.tenant in w.pointers then w.pointers[s.tenant] else "");
    }
  }

  // ── Run invariants ──

  lemma TidyFrom(nodes: seq<Node>, nodes': seq<Node>)
    requires AllTidy(nodes) && AllFromOld(nodes, nodes')
    ensures AllTidy(nodes')
  {
    forall n | n in nodes' ensures Tidy(n) {
      var m :| m in nodes && Derived(m, n);
    }
    forall m, n | m in nodes' && n in nodes' && SameEntity(m, n) ensures m.kind == n.kind {
      var k :| k in nodes && Derived(k, m);
      var l :| l in nodes && Derived(l, n);
      assert SameEntity(k, l);
    }
  }

  lemma TidyWithNew(nodes: seq<Node>, n: Node)
    requires AllTidy(nodes) && Tidy(n) && forall m :: m in nodes ==> m.rid != n.rid
    ensures AllTidy(nodes + [n])
  {
    forall k, l | k in nodes + [n] && l in nodes + [n] && SameEntity(k, l) ensures k.kind == l.kind {
      assert (k in nodes && l in nodes) || k == l == n;
    }
  }

  lemma StepKeepsTidy(w: World, s: Step)
    requires AllTidy(w.nodes) && FreshRid(w, s)
    ensures AllTidy(After(w, s).nodes)
  {
    if !s.CreateStep? {
      StepDerives(w, s);
      TidyFrom(w.nodes, After(w, s).nodes);
    } else if After(w, s).nodes != w.nodes {
      TidyWithNew(w.nodes, FreshDraft(s.kind, s.rid, s.tenant, s.user, s.props, s.now));
    }
  }

  const EMPTY := World([], map[], {}, [], map[])

  ghost predicate FreshRun(steps: seq<Step>) {
    forall i :: 0 <= i < |steps| ==> FreshRid(AfterAll(EMPTY, steps[..i]), steps[i])
  }

  /**
   In every run with fresh rids, whatever becomes of its promotions and rollbacks: no node is ever
   both draft and staging, owners mark exactly the drafts, and an entity keeps its label.
   */
  lemma {:induction false} RunsAreTidy(steps: seq<Step>)
    requires FreshRun(steps)
    ensures AllTidy(AfterAll(EMPTY, steps).nodes)
  {
    if steps == [] {
      assert AfterAll(EMPTY, steps).nodes == [];
    } else {
      var front := steps[..|steps| - 1];
      assert forall i :: 0 <= i < |front| ==> front[..i] == steps[..i];
      RunsAreTidy(front);
      StepKeepsTidy(AfterAll(EMPTY, front), steps[|steps| - 1]);
    }
  }

  lemma EditKeepsSound(w: World, s: Step)
    requires Sound(w) && IsEdit(s) && Admissible(w, s)
    ensures Sound(After(w, s))
  {
    var w' := After(w, s);
    EditKeepsLive(w, s);
    StepKeepsTidy(w, s);
    if !s.CreateStep? {
      EditReworks(w, s);
      forall n | n in w'.nodes ensures NodeOk(n, w') {
        var m :| m in w.nodes && Reworked(m, n);
        assert NodeOk(m, w);
      }
    } else {
      forall n | n in w'.nodes ensures NodeOk(n, w') {
        assert n in w.nodes ==> NodeOk(n, w);
      }
    }
  }

  // ── Commit ──

  /** Whether the commit goes through. */
  predicate Commits(w: World, s: Step)
    requires s.CommitStep?
  {
    s.tenant !in w.committing && Keep(w.nodes, Staged(s.tenant)) != []
  }

  lemma CommitEffect(w: World, s: Step)
    requires s.CommitStep? && Admissible(w, s)
    ensures After(w, s) ==
            if !Commits(w, s) then w
            else w.(nodes := Promote(w.nodes, s.tenant, s.id),
                    snapshots := w.snapshots + [SnapshotOf(w, s.user, s.tenant, s.id)],
                    pointers := w.pointers[s.tenant := s.id])
  {
    var n := DEFAULT_MAX_RETRIES + 1;
    OneMoreAttempt(w.nodes, s.tenant, s.id, s.script, Tries(s.script, n, 0) - 1);
  }

  /** What the first two promotion statements make of a node. */
  function PromotedNode(rids: set<string>, tenant: string, id: string, n: Node): Node {
    if StagingIn(n, tenant) then Stamp(id)(n)
    else if LiveIn(n, tenant) && n.rid in rids then SetInactive()(n)
    else n
  }

  lemma PromotedFrom(nodes: seq<Node>, tenant: string, id: string, n: Node)
    requires n in Promote(nodes, tenant, id)
    ensures exists m :: m in nodes && n == PromotedNode(StagingRids(nodes, tenant), tenant, id, m)
    ensures !Stamped(tenant, id, false)(n)
  {
    var d := Deactivate(nodes, tenant);
    var g := PromoteNodes(d, tenant, id);
    KeepMembers(g, Not(Stamped(tenant, id, false)));
    var i :| 0 <= i < |g| && g[i] == n;
    assert nodes[i] in nodes && n == PromotedNode(StagingRids(nodes, tenant), tenant, id, nodes[i]);
  }

  lemma IdsGrow(snapshots: seq<Snapshot>, s: Snapshot)
    ensures Ids(snapshots + [s]) == Ids(snapshots) + {s.id}
  {
    assert s in snapshots + [s];
    forall x | x in snapshots ensures x in snapshots + [s] {}
  }

  lemma CommitKeepsSound(w: World, s: Step)
    requires Sound(w) && s.CommitStep? && Admissible(w, s)
    ensures Sound(After(w, s))
  {
    var w' := After(w, s);
    CommitEffect(w, s);
    StepKeepsTidy(w, s);
    if Commits(w, s) {
      IdsGrow(w.snapshots, SnapshotOf(w, s.user, s.tenant, s.id));
      forall n | n in w'.nodes ensures NodeOk(n, w') {
        PromotedFrom(w.nodes, s.tenant, s.id, n);
        var m :| m in w.nodes && n == PromotedNode(StagingRids(w.nodes, s.tenant), s.tenant, s.id, m);
        assert NodeOk(m, w);
      }
    }
  }

  lemma {:induction false} FoundIsKnown(snapshots: seq<Snapshot>, id: string)
    ensures Find(snapshots, id).Some? <==> id in Ids(snapshots)
  {
    if snapshots == [] {
    } else {
      var front, last := snapshots[..|snapshots| - 1], snapshots[|snapshots| - 1];
      FoundIsKnown(front, id);
      assert snapshots == front + [last];
      IdsGrow(front, last);
    }
  }

  lemma {:induction false} RollbackKeepsSound(w: World, s: Step)
    requires Sound(w) && s.RollbackStep?
    ensures Sound(After(w, s))
  {
    var w' := After(w, s);
    FoundIsKnown(w.snapshots, s.id);
    StepKeepsTidy(w, s);
    if !Uncommitted(w.nodes, s.tenant) && Find(w.snapshots, s.id).Some? {
      forall n | n in w'.nodes ensures NodeOk(n, w') {
        var i :| 0 <= i < |w'.nodes| && w'.nodes[i] == n;
        assert w.nodes[i] in w.nodes && NodeOk(w.nodes[i], w);
      }
    }
  }

  lemma {:induction false} StepKeepsSound(w: World, s: Step)
    requires Sound(w) && Admissible(w, s)
    ensures Sound(After(w, s))
  {
    if IsEdit(s) { EditKeepsSound(w, s); }
    else if s.CommitStep? { CommitKeepsSound(w, s); }
    else { RollbackKeepsSound(w, s); }
  }

  ghost predicate AdmissibleRun(steps: seq<Step>) {
    forall i :: 0 <= i < |steps| ==> Admissible(AfterAll(EMPTY, steps[..i]), steps[i])
  }

  /** If promotions get through, stamps are known and the current snapshot's versions are active, besides. */
  lemma {:induction false} RunsAreSound(steps: seq<Step>)
    requires AdmissibleRun(steps)
    ensures Sound(AfterAll(EMPTY, steps))
  {
    if steps == [] {
      assert AfterAll(EMPTY, steps) == EMPTY;
    } else {
      var front := steps[..|steps| - 1];
      assert forall i :: 0 <= i < |front| ==> front[..i] == steps[..i];
      RunsAreSound(front);
      StepKeepsSound(AfterAll(EMPTY, front), steps[|steps| - 1]);
    }
  }
}
