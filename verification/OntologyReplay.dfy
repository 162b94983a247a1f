/** A commit as an update of the active view, and the view as a replay of its snapshots. */
module OntologyReplay {
  import opened Ordering
  import opened Sequences
  import opened OntologyGraph
  import opened OntologyService
  import opened OntologyRuns
  import opened OntologyViews

  // ── The view after a commit ──

  /** What a commit leaves live of a node. */
  function CommitFate(rids: set<string>, tenant: string, id: string): Node -> Option<Node> {
    (n: Node) =>
      if StagingIn(n, tenant) then if n.isActive && !n.isDraft then Some(Stamp(id)(n)) else None
      else if Live(n) && !(n.tenant == tenant && n.rid in rids) then Some(n)
      else None
  }

  lemma PromoteThenFate(nodes: seq<Node>, tenant: string, id: string, fate: Node -> Option<Node>)
    ensures MapKeep(Promote(nodes, tenant, id), fate)
         == MapKeep(nodes, ThenSet(Superseded(StagingRids(nodes, tenant), tenant), SetInactive(),
                             ThenSet(Staged(tenant), Stamp(id), ThenKeep(Not(Stamped(tenant, id, false)), fate))))
  {
    var d := Deactivate(nodes, tenant);
    var last := ThenKeep(Not(Stamped(tenant, id, false)), fate);
    FateAfterKeep(PromoteNodes(d, tenant, id), Not(Stamped(tenant, id, false)), fate);
    FateAfterSet(d, Staged(tenant), Stamp(id), last);
    FateAfterSet(nodes, Superseded(StagingRids(nodes, tenant), tenant), SetInactive(),
                 ThenSet(Staged(tenant), Stamp(id), last));
  }

  lemma CommitLive(nodes: seq<Node>, tenant: string, id: string)
    ensures Keep(Promote(nodes, tenant, id), LiveNode())
         == MapKeep(nodes, CommitFate(StagingRids(nodes, tenant), tenant, id))
  {
    var rids := StagingRids(nodes, tenant);
    KeepIsFate(Promote(nodes, tenant, id), LiveNode());
    PromoteThenFate(nodes, tenant, id, Only(LiveNode()));
    SameFates(nodes,
              ThenSet(Superseded(rids, tenant), SetInactive(),
                ThenSet(Staged(tenant), Stamp(id), ThenKeep(Not(Stamped(tenant, id, false)), Only(LiveNode())))),
              CommitFate(rids, tenant, id));
  }

  lemma CommitFateCases(rids: set<string>, tenant: string, id: string, n: Node)
    requires CommitFate(rids, tenant, id)(n).Some?
    ensures var left := CommitFate(rids, tenant, id)(n).value;
            && SameEntity(n, left)
            && (if StagingIn(n, tenant) then left == Stamp(id)(n) && n.isActive && !n.isDraft
                else left == n && Live(n) && !(n.tenant == tenant && n.rid in rids))
  {
    assert Stamp(id)(n) == n.(isStaging := false, snapshot := Some(id));
  }

  /** One active version per rid survives a commit of at most one staged version per rid. */
  lemma CommitKeepsUnique(nodes: seq<Node>, tenant: string, id: string)
    requires Unique(Keep(nodes, LiveNode())) && Unique(Keep(nodes, Staged(tenant)))
    ensures Unique(Keep(Promote(nodes, tenant, id), LiveNode()))
  {
    var rids := StagingRids(nodes, tenant);
    var fate := CommitFate(rids, tenant, id);
    KeepIsFate(nodes, LiveNode());
    KeepIsFate(nodes, Staged(tenant));
    UniqueMeansFatesApart(nodes, Only(LiveNode()));
    UniqueMeansFatesApart(nodes, Only(Staged(tenant)));
    forall i, j | 0 <= i < j < |nodes| && fate(nodes[i]).Some? && fate(nodes[j]).Some?
      ensures !SameEntity(fate(nodes[i]).value, fate(nodes[j]).value)
    {
      var m, n := nodes[i], nodes[j];
      assert m in nodes && n in nodes;
      CommitFateCases(rids, tenant, id, m);
      CommitFateCases(rids, tenant, id, n);
      if StagingIn(m, tenant) && StagingIn(n, tenant) {
        assert Only(Staged(tenant))(m) == Some(m) && Only(Staged(tenant))(n) == Some(n);
      } else if !StagingIn(m, tenant) && !StagingIn(n, tenant) {
        assert Only(LiveNode())(m) == Some(m) && Only(LiveNode())(n) == Some(n);
      } else {
        assert (if StagingIn(m, tenant) then m.rid else n.rid) in rids;
      }
    }
    assert FatesApart(nodes, fate);
    CommitLive(nodes, tenant, id);
    UniqueFates(nodes, fate);
  }

  lemma {:induction false} SnapshotFacts(nodes: seq<Node>, tenant: string, staging: seq<Node>)
    requires Unique(staging) && forall n :: n in staging ==> n.tenant == tenant && n.rid != ""
    ensures forall r :: r in ChangesOf(nodes, tenant, staging) <==> Listed(staging, tenant, r)
    ensures DataOf(staging).Keys == ChangesOf(nodes, tenant, staging).Keys
    ensures forall n :: n in staging ==>
              && n.rid in ChangesOf(nodes, tenant, staging)
              && ChangesOf(nodes, tenant, staging)[n.rid] == ChangeOf(nodes, tenant, n)
              && DataOf(staging)[n.rid] == Stored(n)
  {
    if staging == [] {
    } else {
      var front, last := staging[..|staging| - 1], staging[|staging| - 1];
      assert staging == front + [last] && last in staging;
      UniqueAppend(front, last);
      SnapshotFacts(nodes, tenant, front);
      forall r ensures r in ChangesOf(nodes, tenant, staging) <==> Listed(staging, tenant, r) {
        if Listed(front, tenant, r) {
          var n :| n in front && n.tenant == tenant && n.rid == r;
          assert n in staging;
        }
      }
    }
  }

  /** Applying a snapshot: staged payloads override, deletion marks remove. */
  function Apply(view: map<string, Node>, s: Snapshot): map<string, Node> {
    (map r | r in view && r !in s.changes :: view[r])
    + map r | r in s.changes && s.changes[r] != Deleted && r in s.data :: Core(s.data[r])
  }

  lemma ApplyAt(view: map<string, Node>, s: Snapshot, r: string)
    ensures if r in s.changes
            then (r in Apply(view, s) <==> s.changes[r] != Deleted && r in s.data)
                 && (r in Apply(view, s) ==> Apply(view, s)[r] == Core(s.data[r]))
            else (r in Apply(view, s) <==> r in view) && (r in view ==> Apply(view, s)[r] == view[r])
  {
  }

  lemma StoredKeepsCore(n: Node, id: string)
    ensures Core(Stored(n)) == Core(n) == Core(Stamp(id)(n))
  {
    assert Public(Public(n.payload)) == Public(n.payload);
  }

  lemma LiveAfterCommit(nodes: seq<Node>, tenant: string, id: string)
    ensures forall m :: m in Keep(Promote(nodes, tenant, id), LiveNode())
              <==> exists n :: n in nodes && CommitFate(StagingRids(nodes, tenant), tenant, id)(n) == Some(m)
  {
    CommitLive(nodes, tenant, id);
    MapKeepMembers(nodes, CommitFate(StagingRids(nodes, tenant), tenant, id));
  }

  /** A world in which a commit has a well-defined meaning for the tenant. */
  ghost predicate ReadyToCommit(w: World, s: Step) {
    && Sound(w) && Unique(LiveNodes(w))
    && s.CommitStep? && Admissible(w, s) && Commits(w, s)
    && Unique(Keep(w.nodes, Staged(s.tenant)))
  }

  lemma StagingIsListed(w: World, s: Step, r: string)
    requires ReadyToCommit(w, s)
    ensures var staging := Keep(w.nodes, Staged(s.tenant));
            && (forall n :: n in staging ==> n in w.nodes && StagingIn(n, s.tenant) && Tidy(n))
            && (r in StagingRids(w.nodes, s.tenant) <==> Listed(staging, s.tenant, r))
  {
    KeepMembers(w.nodes, Staged(s.tenant));
    forall n | n in w.nodes ensures NodeOk(n, w) {}
    if r in StagingRids(w.nodes, s.tenant) {
      var n :| n in w.nodes && StagingIn(n, s.tenant) && n.rid == r;
      assert n in Keep(w.nodes, Staged(s.tenant));
    }
  }

  lemma OnlyOne(list: seq<Node>, m: Node, n: Node)
    requires Unique(list) && m in list && n in list && SameEntity(m, n)
    ensures m == n
  {
    var i :| 0 <= i < |list| && list[i] == m;
    var j :| 0 <= j < |list| && list[j] == n;
    assert SameEntity(list[i], list[j]) && SameEntity(list[j], list[i]);
  }

  /** A staged rid shows the staged version afterwards, or nothing if that marks a deletion. */
  lemma StagedRidAfter(nodes: seq<Node>, tenant: string, id: string, n: Node)
    requires Unique(Keep(nodes, LiveNode())) && Unique(Keep(nodes, Staged(tenant)))
    requires n in nodes && StagingIn(n, tenant) && Tidy(n)
    ensures var view := ViewFrom(Keep(Promote(nodes, tenant, id), LiveNode()), tenant);
            (n.rid in view <==> n.isActive) && (n.isActive ==> view[n.rid] == Core(n))
  {
    var rids := StagingRids(nodes, tenant);
    var fate := CommitFate(rids, tenant, id);
    var live := Keep(Promote(nodes, tenant, id), LiveNode());
    CommitKeepsUnique(nodes, tenant, id);
    ViewFacts(live, tenant);
    LiveAfterCommit(nodes, tenant, id);
    KeepMembers(nodes, Staged(tenant));
    assert n.rid in rids;
    if n.isActive {
      assert fate(n) == Some(Stamp(id)(n));
      assert Stamp(id)(n) in live;
      StoredKeepsCore(n, id);
    }
    if Listed(live, tenant, n.rid) {
      var m :| m in live && m.tenant == tenant && m.rid == n.rid;
      var k :| k in nodes && fate(k) == Some(m);
      CommitFateCases(rids, tenant, id, k);
      assert k in Keep(nodes, Staged(tenant)) && n in Keep(nodes, Staged(tenant));
      OnlyOne(Keep(nodes, Staged(tenant)), k, n);
    }
  }

  /** Every other entity, of any tenant, shows what it showed. */
  lemma OtherRidAfter(nodes: seq<Node>, tenant: string, id: string, t: string, r: string)
    requires Unique(Keep(nodes, LiveNode())) && Unique(Keep(nodes, Staged(tenant)))
    requires t != tenant || r !in StagingRids(nodes, tenant)
    ensures var before := ViewFrom(Keep(nodes, LiveNode()), t);
            var after := ViewFrom(Keep(Promote(nodes, tenant, id), LiveNode()), t);
            (r in before <==> r in after) && (r in before ==> before[r] == after[r])
  {
    var rids := StagingRids(nodes, tenant);
    var fate := CommitFate(rids, tenant, id);
    var live, live' := Keep(nodes, LiveNode()), Keep(Promote(nodes, tenant, id), LiveNode());
    CommitKeepsUnique(nodes, tenant, id);
    ViewFacts(live, t);
    ViewFacts(live', t);
    LiveAfterCommit(nodes, tenant, id);
    KeepMembers(nodes, LiveNode());
    if Listed(live, t, r) {
      var n :| n in live && n.tenant == t && n.rid == r;
      assert fate(n) == Some(n);
      assert n in live';
    }
    if Listed(live', t, r) {
      var m :| m in live' && m.tenant == t && m.rid == r;
      var k :| k in nodes && fate(k) == Some(m);
      CommitFateCases(rids, tenant, id, k);
      assert StagingIn(k, tenant) ==> k.rid in rids;
      assert m in live;
    }
  }

  ghost predicate Records(s: Snapshot, nodes: seq<Node>, tenant: string, staging: seq<Node>) {
    && s.changes == ChangesOf(nodes, tenant, staging) && s.data == DataOf(staging)
    && Unique(staging) && forall n :: n in staging ==> n.tenant == tenant && n.rid != ""
  }

  lemma AppliedAtStaged(nodes: seq<Node>, tenant: string, staging: seq<Node>, s: Snapshot, view: map<string, Node>,
                        n: Node)
    requires Records(s, nodes, tenant, staging) && n in staging
    ensures n.rid in Apply(view, s) <==> n.isActive
    ensures n.isActive ==> Apply(view, s)[n.rid] == Core(n)
  {
    SnapshotFacts(nodes, tenant, staging);
    StoredKeepsCore(n, "");
    assert s.changes[n.rid] == Deleted <==> !n.isActive;
    ApplyAt(view, s, n.rid);
  }

  lemma AppliedElsewhere(nodes: seq<Node>, tenant: string, staging: seq<Node>, s: Snapshot, view: map<string, Node>,
                         r: string)
    requires Records(s, nodes, tenant, staging) && !Listed(staging, tenant, r)
    ensures r in Apply(view, s) <==> r in view
    ensures r in view ==> Apply(view, s)[r] == view[r]
  {
    SnapshotFacts(nodes, tenant, staging);
    ApplyAt(view, s, r);
  }

  /** One rid of the committing tenant's view afterwards. */
  lemma {:induction false} ViewAfterCommitAt(w: World, s: Step, r: string)
    requires ReadyToCommit(w, s)
    ensures var snapshot := SnapshotOf(w, s.user, s.tenant, s.id);
            var view := ViewFrom(Keep(Promote(w.nodes, s.tenant, s.id), LiveNode()), s.tenant);
            var applied := Apply(View(w, s.tenant), snapshot);
            (r in view <==> r in applied) && (r in view ==> view[r] == applied[r])
  {
    var staging := Keep(w.nodes, Staged(s.tenant));
    var snapshot := SnapshotOf(w, s.user, s.tenant, s.id);
    StagingIsListed(w, s, r);
    if Listed(staging, s.tenant, r) {
      var n :| n in staging && n.tenant == s.tenant && n.rid == r;
      AppliedAtStaged(w.nodes, s.tenant, staging, snapshot, View(w, s.tenant), n);
      StagedRidAfter(w.nodes, s.tenant, s.id, n);
    } else {
      AppliedElsewhere(w.nodes, s.tenant, staging, snapshot, View(w, s.tenant), r);
      OtherRidAfter(w.nodes, s.tenant, s.id, s.tenant, r);
    }
  }

  /** A commit is a functional update of the tenant's view, and of nobody else's. */
  lemma CommitUpdatesView(w: World, s: Step)
    requires ReadyToCommit(w, s)
    ensures View(After(w, s), s.tenant) == Apply(View(w, s.tenant), SnapshotOf(w, s.user, s.tenant, s.id))
    ensures forall t :: t != s.tenant ==> View(After(w, s), t) == View(w, t)
    ensures Unique(LiveNodes(After(w, s)))
    ensures NoStaging(After(w, s).nodes, s.tenant)
  {
    CommitEffect(w, s);
    var view, applied := View(After(w, s), s.tenant), Apply(View(w, s.tenant), SnapshotOf(w, s.user, s.tenant, s.id));
    forall r ensures r in view <==> r in applied { ViewAfterCommitAt(w, s, r); }
    forall r | r in view ensures view[r] == applied[r] { ViewAfterCommitAt(w, s, r); }
    CommitKeepsUnique(w.nodes, s.tenant, s.id);
    PromotedLeavesNoStaging(w.nodes, s.tenant, s.id, 3);
    forall t | t != s.tenant ensures View(After(w, s), t) == View(w, t) {
      OtherTenantsUntouched(w, s, t);
    }
  }

  lemma OtherTenantsUntouched(w: World, s: Step, t: string)
    requires ReadyToCommit(w, s) && t != s.tenant
    ensures View(After(w, s), t) == View(w, t)
  {
    CommitEffect(w, s);
    forall r ensures r in View(After(w, s), t) <==> r in View(w, t) {
      OtherRidAfter(w.nodes, s.tenant, s.id, t, r);
    }
    forall r | r in View(w, t) ensures View(After(w, s), t)[r] == View(w, t)[r] {
      OtherRidAfter(w.nodes, s.tenant, s.id, t, r);
    }
  }

  /** The recorded changes say exactly how the view changed. */
  lemma ChangesAreExact(w: World, s: Step, r: string)
    requires ReadyToCommit(w, s)
    ensures var changes := SnapshotOf(w, s.user, s.tenant, s.id).changes;
            var before, after := View(w, s.tenant), View(After(w, s), s.tenant);
            && (r in changes <==> r in StagingRids(w.nodes, s.tenant))
            && (r in changes ==> match changes[r]
                  case Created => r !in before && r in after
                  case Updated => r in before && r in after
                  case Deleted => r !in after)
            && (r !in changes ==> (r in before <==> r in after) && (r in before ==> before[r] == after[r]))
  {
    CommitEffect(w, s);
    StagingIsListed(w, s, r);
    var staging := Keep(w.nodes, Staged(s.tenant));
    SnapshotFacts(w.nodes, s.tenant, staging);
    if r in StagingRids(w.nodes, s.tenant) {
      var n :| n in staging && n.tenant == s.tenant && n.rid == r;
      StagedRidAfter(w.nodes, s.tenant, s.id, n);
      ReadingIsViewing(w.nodes, s.tenant, n);
    } else {
      OtherRidAfter(w.nodes, s.tenant, s.id, s.tenant, r);
    }
  }

  // ── Replay ──

  /** The snapshots from the root to `pointer`, following parent pointers through earlier rows. */
  function Chain(snapshots: seq<Snapshot>, pointer: Option<string>): seq<Snapshot> {
    if pointer.None? || snapshots == [] then []
    else
      var front, last := snapshots[..|snapshots| - 1], snapshots[|snapshots| - 1];
      if last.id == pointer.value then Chain(front, last.parent) + [last] else Chain(front, pointer)
  }

  function Replay(chain: seq<Snapshot>): map<string, Node> {
    if chain == [] then map[] else Apply(Replay(chain[..|chain| - 1]), chain[|chain| - 1])
  }

  /** Every parent is an earlier row. */
  ghost predicate ParentsKnown(snapshots: seq<Snapshot>) {
    forall i :: 0 <= i < |snapshots| && snapshots[i].parent.Some? ==> snapshots[i].parent.value in Ids(snapshots[..i])
  }

  /** The chain is the parent path: it ends at the pointer, starts at a root, and follows parents. */
  lemma ChainFollowsParents(snapshots: seq<Snapshot>, pointer: Option<string>)
    requires ParentsKnown(snapshots) && (pointer.Some? ==> pointer.value in Ids(snapshots))
    ensures ParentPath(Chain(snapshots, pointer), pointer)
    ensures forall s :: s in Chain(snapshots, pointer) ==> s in snapshots
  {
    ChainIsPath(snapshots, pointer);
    ChainIsWithin(snapshots, pointer);
  }

  lemma {:induction false} ChainIsPath(snapshots: seq<Snapshot>, pointer: Option<string>)
    requires ParentsKnown(snapshots) && (pointer.Some? ==> pointer.value in Ids(snapshots))
    ensures ParentPath(Chain(snapshots, pointer), pointer)
  {
    if pointer.None? {
      assert Chain(snapshots, pointer) == [];
    } else {
      SomeSnapshot(snapshots, pointer.value);
      var front, last := snapshots[..|snapshots| - 1], snapshots[|snapshots| - 1];
      assert snapshots == front + [last];
      IdsGrow(front, last);
      FrontParentsKnown(front, last);
      if last.id == pointer.value {
        ChainIsPath(front, last.parent);
        PathAppend(Chain(front, last.parent), last);
      } else {
        ChainIsPath(front, pointer);
      }
    }
  }

  lemma SomeSnapshot(snapshots: seq<Snapshot>, id: string)
    requires id in Ids(snapshots)
    ensures snapshots != []
  {
  }

  lemma {:induction false} ChainIsWithin(snapshots: seq<Snapshot>, pointer: Option<string>)
    ensures forall s :: s in Chain(snapshots, pointer) ==> s in snapshots
  {
    if pointer.None? || snapshots == [] {
    } else {
      var front, last := snapshots[..|snapshots| - 1], snapshots[|snapshots| - 1];
      assert snapshots == front + [last];
      ChainIsWithin(front, if last.id == pointer.value then last.parent else pointer);
    }
  }

  /** Ends at the pointer, starts at a root, and follows parents in between. */
  ghost predicate ParentPath(chain: seq<Snapshot>, pointer: Option<string>) {
    && (pointer.None? <==> chain == [])
    && (chain != [] ==> chain[0].parent == None && Some(chain[|chain| - 1].id) == pointer)
    && forall i :: 0 < i < |chain| ==> chain[i].parent == Some(chain[i - 1].id)
  }

  lemma PathAppend(chain: seq<Snapshot>, s: Snapshot)
    requires ParentPath(chain, s.parent)
    ensures ParentPath(chain + [s], Some(s.id))
  {
  }

  lemma FrontParentsKnown(front: seq<Snapshot>, last: Snapshot)
    requires ParentsKnown(front + [last])
    ensures ParentsKnown(front) && (last.parent.Some? ==> last.parent.value in Ids(front))
  {
    var all := front + [last];
    assert all[..|front|] == front && all[|front|] == last;
    forall i | 0 <= i < |front| && front[i].parent.Some? ensures front[i].parent.value in Ids(front[..i]) {
      assert all[i] == front[i] && all[..i] == front[..i];
    }
  }

  /** Each tenant's view is the replay of its published chain. */
  ghost predicate Replayed(w: World) {
    && Unique(LiveNodes(w)) && ParentsKnown(w.snapshots)
    && forall t :: View(w, t) == Replay(Chain(w.snapshots, PointerOf(w.pointers, t)))
  }

  /** A step of a rollback-free run; a commit finds at most one staged version per rid. */
  ghost predicate Publishing(w: World, s: Step) {
    && Admissible(w, s) && !s.RollbackStep?
    && (s.CommitStep? ==> Unique(Keep(w.nodes, Staged(s.tenant))))
  }

  lemma ChainAppend(snapshots: seq<Snapshot>, s: Snapshot, pointer: Option<string>)
    ensures Chain(snapshots + [s], pointer)
         == if pointer == Some(s.id) then Chain(snapshots, s.parent) + [s] else Chain(snapshots, pointer)
  {
    assert (snapshots + [s])[..|snapshots|] == snapshots;
  }

  lemma ReplayAppend(chain: seq<Snapshot>, s: Snapshot)
    ensures Replay(chain + [s]) == Apply(Replay(chain), s)
  {
    assert (chain + [s])[..|chain|] == chain;
  }

  lemma ParentsKnownAppend(snapshots: seq<Snapshot>, s: Snapshot)
    requires ParentsKnown(snapshots) && (s.parent.Some? ==> s.parent.value in Ids(snapshots))
    ensures ParentsKnown(snapshots + [s])
  {
    var all := snapshots + [s];
    forall i | 0 <= i < |all| && all[i].parent.Some? ensures all[i].parent.value in Ids(all[..i]) {
      assert all[..i] == snapshots[..i];
      assert snapshots[..|snapshots|] == snapshots;
    }
  }

  lemma {:induction false} CommitKeepsReplayed(w: World, s: Step)
    requires Sound(w) && Replayed(w) && s.CommitStep? && Publishing(w, s) && Commits(w, s)
    ensures Replayed(After(w, s))
  {
    var w' := After(w, s);
    var snapshot := SnapshotOf(w, s.user, s.tenant, s.id);
    CommitEffect(w, s);
    CommitUpdatesView(w, s);
    ParentsKnownAppend(w.snapshots, snapshot);
    forall t ensures View(w', t) == Replay(Chain(w'.snapshots, PointerOf(w'.pointers, t))) {
      PublishedViewGrows(w.snapshots, snapshot, w.pointers, w'.pointers, t);
    }
  }

  lemma PublishedViewGrows(snapshots: seq<Snapshot>, s: Snapshot, pointers: map<string, string>,
                           pointers': map<string, string>, t: string)
    requires pointers' == pointers[s.tenant := s.id] && s.parent == PointerOf(pointers, s.tenant)
    requires PointerOf(pointers, t) != Some(s.id)
    ensures Replay(Chain(snapshots + [s], PointerOf(pointers', t)))
         == if t == s.tenant then Apply(Replay(Chain(snapshots, s.parent)), s)
            else Replay(Chain(snapshots, PointerOf(pointers, t)))
  {
    ChainAppend(snapshots, s, PointerOf(pointers', t));
    ReplayAppend(Chain(snapshots, s.parent), s);
  }

  lemma {:induction false} StepKeepsReplayed(w: World, s: Step)
    requires Sound(w) && Replayed(w) && Publishing(w, s)
    ensures Replayed(After(w, s))
  {
    if IsEdit(s) {
      EditKeepsLive(w, s);
    } else {
      CommitEffect(w, s);
      if Commits(w, s) { CommitKeepsReplayed(w, s); }
    }
  }

  ghost predicate PublishingRun(steps: seq<Step>) {
    forall i :: 0 <= i < |steps| ==> Publishing(AfterAll(EMPTY, steps[..i]), steps[i])
  }

  /**
   Event sourcing: after any rollback-free run from the empty graph, every tenant's active view
   is the replay of its snapshots from the root to the active pointer.
   */
  lemma {:induction false} RunsReplay(steps: seq<Step>)
    requires PublishingRun(steps)
    ensures Sound(AfterAll(EMPTY, steps)) && Replayed(AfterAll(EMPTY, steps))
  {
    if steps == [] {
    } else {
      var front := steps[..|steps| - 1];
      assert forall i :: 0 <= i < |front| ==> front[..i] == steps[..i];
      RunsReplay(front);
      StepKeepsSound(AfterAll(EMPTY, front), steps[|steps| - 1]);
      StepKeepsReplayed(AfterAll(EMPTY, front), steps[|steps| - 1]);
    }
  }
}
