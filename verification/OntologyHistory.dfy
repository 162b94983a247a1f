/** What the node store keeps of every snapshot, and what a rollback to any of them restores. */
module OntologyHistory {
  import opened Ordering
  import opened Sequences
  import opened OntologyGraph
  import opened OntologyService
  import opened OntologyRuns
  import opened OntologyViews
  import opened OntologyReplay
  import opened OntologyRollback

  // ── Published versions ──

  function PublishedNode(): Node -> bool {
    (n: Node) => IsPublished(n)
  }

  function PublishedNodes(w: World): seq<Node> {
    Keep(w.nodes, PublishedNode())
  }

  /** Discarding the staging version of an inactive entity that has published versions turns those into drafts. */
  ghost predicate ReopensPublished(w: World, s: Step) {
    && s.DiscardStagingStep? && First(w.nodes, ActiveVersion(s.kind, s.rid, s.tenant)).None?
    && exists n :: n in w.nodes && AnyVersion(s.kind, s.rid, s.tenant)(n) && IsPublished(n)
  }

  lemma UpdateKeepsPublished(w: World, s: Step)
    requires s.UpdateStep?
    ensures PublishedNodes(After(w, s)) == PublishedNodes(w)
  {
    var source := SourceVersion(w.nodes, s.kind, s.rid, s.tenant);
    if First(w.nodes, DraftOf(s.kind, s.rid, s.tenant, s.user)).Some? {
      KeepIgnoresSet(w.nodes, DraftOf(s.kind, s.rid, s.tenant, s.user), Edited(s.updates, s.now), PublishedNode());
    } else if source.Some? { KeepAppend(w.nodes, CloneDraft(source.value, s.user, s.updates, s.now), PublishedNode()); }
  }

  lemma DeleteKeepsPublished(w: World, s: Step)
    requires s.DeleteStep?
    ensures PublishedNodes(After(w, s)) == PublishedNodes(w)
  {
    var active := First(w.nodes, ActiveVersion(s.kind, s.rid, s.tenant));
    if active.Some? {
      KeepAppend(w.nodes, DeletionDraft(active.value, s.user, s.now), PublishedNode());
    } else if First(w.nodes, DraftOf(s.kind, s.rid, s.tenant, s.user)).Some? {
      KeepIgnoresDelete(w.nodes, DraftOf(s.kind, s.rid, s.tenant, s.user), PublishedNode());
    } else {
      KeepIgnoresDelete(w.nodes, StagingOf(s.kind, s.rid, s.tenant), PublishedNode());
    }
  }

  lemma DiscardKeepsPublished(w: World, s: Step)
    requires s.DiscardDraftStep? || s.DiscardStagingStep? || s.DiscardAllStep?
    requires !ReopensPublished(w, s)
    ensures PublishedNodes(After(w, s)) == PublishedNodes(w)
  {
    match s
    case DiscardDraftStep(user, tenant, kind, rid) =>
      KeepIgnoresDelete(w.nodes, DraftOf(kind, rid, tenant, user), PublishedNode());
    case DiscardStagingStep(user, tenant, kind, rid) =>
      KeepIgnoresDelete(w.nodes, StagingOf(kind, rid, tenant), PublishedNode());
      if First(w.nodes, ActiveVersion(kind, rid, tenant)).None? {
        KeepIgnoresSet(w.nodes, AnyVersion(kind, rid, tenant), Reopened(user), PublishedNode());
      }
    case DiscardAllStep(tenant) =>
      KeepIgnoresDelete(w.nodes, Discardable(tenant), PublishedNode());
  }

  /** No other edit touches a published version, active or not. */
  lemma EditKeepsPublished(w: World, s: Step)
    requires IsEdit(s) && !ReopensPublished(w, s)
    ensures PublishedNodes(After(w, s)) == PublishedNodes(w)
  {
    match s
    case CreateStep(user, tenant, kind, props, rid, now) =>
      KeepAppend(w.nodes, FreshDraft(kind, rid, tenant, user, props, now), PublishedNode());
    case UpdateStep(_, _, _, _, _, _) => UpdateKeepsPublished(w, s);
    case DeleteStep(_, _, _, _, _, _) => DeleteKeepsPublished(w, s);
    case SubmitStep(user, tenant, kind, rid, now) =>
      KeepIgnoresSet(w.nodes, DraftOf(kind, rid, tenant, user), Submitted(now), PublishedNode());
    case DiscardDraftStep(_, _, _, _) => DiscardKeepsPublished(w, s);
    case DiscardStagingStep(_, _, _, _) => DiscardKeepsPublished(w, s);
    case DiscardAllStep(_) => DiscardKeepsPublished(w, s);
    case LocksStep(_, _) =>
  }

  /** What a commit makes of a node's published version. */
  function PublishFate(rids: set<string>, tenant: string, id: string): Node -> Option<Node> {
    (n: Node) =>
      if StagingIn(n, tenant) then if n.isActive && !n.isDraft then Some(Stamp(id)(n)) else None
      else if !IsPublished(n) then None
      else if n.tenant == tenant && n.rid in rids then Some(n.(isActive := false))
      else Some(n)
  }

  lemma CommitPublished(nodes: seq<Node>, tenant: string, id: string)
    requires forall n :: n in nodes ==> n.snapshot != Some(id)
    ensures Keep(Promote(nodes, tenant, id), PublishedNode())
         == MapKeep(nodes, PublishFate(StagingRids(nodes, tenant), tenant, id))
  {
    var rids := StagingRids(nodes, tenant);
    var chained := ThenSet(Superseded(rids, tenant), SetInactive(),
                     ThenSet(Staged(tenant), Stamp(id),
                       ThenKeep(Not(Stamped(tenant, id, false)), Only(PublishedNode()))));
    KeepIsFate(Promote(nodes, tenant, id), PublishedNode());
    PromoteThenFate(nodes, tenant, id, Only(PublishedNode()));
    forall n | n in nodes ensures chained(n) == PublishFate(rids, tenant, id)(n) {
      PublishFateAt(rids, tenant, id, n);
    }
    SameFates(nodes, chained, PublishFate(rids, tenant, id));
  }

  lemma PublishFateAt(rids: set<string>, tenant: string, id: string, n: Node)
    requires n.snapshot != Some(id)
    ensures ThenSet(Superseded(rids, tenant), SetInactive(),
              ThenSet(Staged(tenant), Stamp(id), ThenKeep(Not(Stamped(tenant, id, false)), Only(PublishedNode()))))(n)
         == PublishFate(rids, tenant, id)(n)
  {
    assert !n.isActive ==> SetInactive()(n) == n;
  }

  // ── What a chain of snapshots says about a rid ──

  /** The snapshot publishes a version of the rid: it changes it, and not by a deletion. */
  predicate Lists(s: Snapshot, r: string) {
    r in s.changes && s.changes[r] != Deleted && r in s.data
  }

  /** The last snapshot of the chain that changes the rid. */
  function LastChange(chain: seq<Snapshot>, r: string): Option<Snapshot> {
    if chain == [] then None
    else if r in chain[|chain| - 1].changes then Some(chain[|chain| - 1])
    else LastChange(chain[..|chain| - 1], r)
  }

  lemma LastAppend(chain: seq<Snapshot>, s: Snapshot, r: string)
    ensures LastChange(chain + [s], r) == if r in s.changes then Some(s) else LastChange(chain, r)
  {
    assert (chain + [s])[..|chain|] == chain;
  }

  lemma {:induction false} LastIsChange(chain: seq<Snapshot>, r: string)
    ensures LastChange(chain, r).Some? ==>
              LastChange(chain, r).value in chain && r in LastChange(chain, r).value.changes
  {
    if chain == [] {
    } else {
      LastIsChange(chain[..|chain| - 1], r);
    }
  }

  /** A replayed chain shows a rid as the last snapshot that changes it does. */
  lemma {:induction false} ReplayIsLastChange(chain: seq<Snapshot>, r: string)
    ensures var last := LastChange(chain, r);
            && (r in Replay(chain) <==> last.Some? && Lists(last.value, r))
            && (r in Replay(chain) ==> Replay(chain)[r] == Core(last.value.data[r]))
  {
    if chain == [] {
    } else {
      ReplayIsLastChange(chain[..|chain| - 1], r);
      ApplyAt(Replay(chain[..|chain| - 1]), chain[|chain| - 1], r);
    }
  }

  // ── History ──

  /** The node is the snapshot's version of its rid, with the content that the snapshot recorded. */
  predicate IsVersion(s: Snapshot, n: Node) {
    n.snapshot == Some(s.id) && Lists(s, n.rid) && Core(n.(isActive := true)) == Core(s.data[n.rid])
  }

  /** The node is a version by snapshot `s`, and active exactly when nothing changed its rid since. */
  predicate VersionBy(chain: seq<Snapshot>, s: Snapshot, n: Node) {
    s in chain && IsVersion(s, n) && (n.isActive <==> LastChange(chain, n.rid) == Some(s))
  }

  ghost predicate HasVersion(list: seq<Node>, tenant: string, s: Snapshot, r: string) {
    exists n :: n in list && n.tenant == tenant && n.rid == r && n.snapshot == Some(s.id)
  }

  ghost predicate OneVersionEach(list: seq<Node>, tenant: string) {
    forall id :: Unique(Keep(list, StampedAny(tenant, id)))
  }

  ghost predicate AllVersions(list: seq<Node>, chain: seq<Snapshot>, tenant: string) {
    && (forall n :: n in list && n.tenant == tenant ==> exists s :: VersionBy(chain, s, n))
    && forall s, r :: s in chain && Lists(s, r) ==> HasVersion(list, tenant, s, r)
  }

  /** A snapshot is known by its id. */
  ghost predicate KnownById(snapshots: seq<Snapshot>) {
    forall s, s' :: s in snapshots && s' in snapshots && s.id == s'.id ==> s == s'
  }

  function PublishedChain(w: World, tenant: string): seq<Snapshot> {
    Chain(w.snapshots, PointerOf(w.pointers, tenant))
  }

  /** The published nodes of each tenant are exactly the versions that its chain lists, one each. */
  ghost predicate History(w: World) {
    && KnownById(w.snapshots)
    && forall t :: OneVersionEach(PublishedNodes(w), t) && AllVersions(PublishedNodes(w), PublishedChain(w, t), t)
  }

  ghost predicate Historic(w: World) {
    Sound(w) && Replayed(w) && History(w)
  }

  // ── Commits extend the history ──

  /** A fate whose result has to pass a filter. */
  function FateIf(fate: Node -> Option<Node>, q: Node -> bool): Node -> Option<Node> {
    (n: Node) => match fate(n) case Some(m) => if q(m) then Some(m) else None case None => None
  }

  lemma {:induction false} KeepAfterFate(nodes: seq<Node>, fate: Node -> Option<Node>, q: Node -> bool)
    ensures Keep(MapKeep(nodes, fate), q) == MapKeep(nodes, FateIf(fate, q))
  {
    if nodes == [] {
    } else {
      var front, last := nodes[..|nodes| - 1], nodes[|nodes| - 1];
      KeepAfterFate(front, fate, q);
      if fate(last).Some? { KeepAppend(MapKeep(front, fate), fate(last).value, q); }
      assert fate(last).None? ==> MapKeep(nodes, fate) == MapKeep(front, fate);
    }
  }

  /** How a version gets to be published after a commit. */
  lemma PublishFateCases(rids: set<string>, tenant: string, id: string, n: Node)
    requires PublishFate(rids, tenant, id)(n).Some?
    ensures var m := PublishFate(rids, tenant, id)(n).value;
            && SameEntity(n, m)
            && (if StagingIn(n, tenant) then m == Stamp(id)(n) && n.isActive && !n.isDraft
                else IsPublished(n) && m == n.(isActive := n.isActive && !(n.tenant == tenant && n.rid in rids)))
  {
    assert n == n.(isActive := n.isActive);
    assert Stamp(id)(n) == n.(isStaging := false, snapshot := Some(id));
  }

  lemma CommitKeepsOneVersion(nodes: seq<Node>, tenant: string, id: string, t: string, x: string)
    requires Unique(Keep(nodes, Staged(tenant))) && forall n :: n in nodes ==> n.snapshot != Some(id)
    requires Unique(Keep(Keep(nodes, PublishedNode()), StampedAny(t, x)))
    ensures Unique(Keep(Keep(Promote(nodes, tenant, id), PublishedNode()), StampedAny(t, x)))
  {
    var rids := StagingRids(nodes, tenant);
    var fate := FateIf(PublishFate(rids, tenant, id), StampedAny(t, x));
    var before := FateIf(Only(PublishedNode()), StampedAny(t, x));
    KeepIsFate(nodes, PublishedNode());
    KeepAfterFate(nodes, Only(PublishedNode()), StampedAny(t, x));
    UniqueMeansFatesApart(nodes, before);
    KeepIsFate(nodes, Staged(tenant));
    UniqueMeansFatesApart(nodes, Only(Staged(tenant)));
    forall i, j | 0 <= i < j < |nodes| && fate(nodes[i]).Some? && fate(nodes[j]).Some?
      ensures !SameEntity(fate(nodes[i]).value, fate(nodes[j]).value)
    {
      var m, n := nodes[i], nodes[j];
      assert m in nodes && n in nodes;
      PublishFateCases(rids, tenant, id, m);
      PublishFateCases(rids, tenant, id, n);
      if StagingIn(m, tenant) && StagingIn(n, tenant) {
        assert Only(Staged(tenant))(m) == Some(m) && Only(Staged(tenant))(n) == Some(n);
      } else if !StagingIn(m, tenant) && !StagingIn(n, tenant) {
        assert before(m) == Some(m) && before(n) == Some(n);
      }
    }
    CommitPublished(nodes, tenant, id);
    KeepAfterFate(nodes, PublishFate(rids, tenant, id), StampedAny(t, x));
    UniqueFates(nodes, fate);
  }

  lemma LastIsKnown(w: World, tenant: string)
    requires Sound(w) && Replayed(w)
    ensures var chain := PublishedChain(w, tenant);
            && (forall s :: s in chain ==> s in w.snapshots)
            && (chain != [] ==> Some(chain[|chain| - 1].id) == PointerOf(w.pointers, tenant))
  {
    ChainFollowsParents(w.snapshots, PointerOf(w.pointers, tenant));
  }

  lemma NewIdIsNowhere(w: World, id: string)
    requires Sound(w) && id !in Ids(w.snapshots)
    ensures forall n :: n in w.nodes ==> n.snapshot != Some(id)
    ensures forall s :: s in w.snapshots ==> s.id != id
  {
    forall n | n in w.nodes ensures n.snapshot != Some(id) { assert NodeOk(n, w); }
  }

  lemma StagedIsListed(w: World, s: Step, n: Node)
    requires ReadyToCommit(w, s) && n in w.nodes && StagingIn(n, s.tenant)
    ensures var snapshot := SnapshotOf(w, s.user, s.tenant, s.id);
            && n.rid in snapshot.changes && n.rid in snapshot.data && snapshot.data[n.rid] == Stored(n)
            && (Lists(snapshot, n.rid) <==> n.isActive)
  {
    KeepMembers(w.nodes, Staged(s.tenant));
    StagingIsListed(w, s, n.rid);
    SnapshotFacts(w.nodes, s.tenant, Keep(w.nodes, Staged(s.tenant)));
  }

  /** The published version of a staged node is the new snapshot's. */
  lemma StagedBecomesVersion(w: World, s: Step, n: Node)
    requires ReadyToCommit(w, s) && n in w.nodes && StagingIn(n, s.tenant) && n.isActive
    ensures var snapshot := SnapshotOf(w, s.user, s.tenant, s.id);
            VersionBy(PublishedChain(w, s.tenant) + [snapshot], snapshot, Stamp(s.id)(n))
  {
    var snapshot := SnapshotOf(w, s.user, s.tenant, s.id);
    StagedIsListed(w, s, n);
    StoredKeepsCore(n, s.id);
    LastAppend(PublishedChain(w, s.tenant), snapshot, n.rid);
    assert Stamp(s.id)(n).(isActive := true) == Stamp(s.id)(n);
  }

  /** An older version stays one, and is active unless the new snapshot changes its rid. */
  lemma VersionStays(chain: seq<Snapshot>, next: Snapshot, s: Snapshot, n: Node)
    requires VersionBy(chain, s, n) && next.id != s.id
    ensures VersionBy(chain + [next], s, n.(isActive := n.isActive && n.rid !in next.changes))
  {
    LastAppend(chain, next, n.rid);
  }

  lemma CommitPublishes(w: World, s: Step)
    requires ReadyToCommit(w, s)
    ensures PublishedNodes(After(w, s)) == MapKeep(w.nodes, PublishFate(StagingRids(w.nodes, s.tenant), s.tenant, s.id))
    ensures forall m :: m in PublishedNodes(After(w, s)) <==>
              exists n :: n in w.nodes && PublishFate(StagingRids(w.nodes, s.tenant), s.tenant, s.id)(n) == Some(m)
  {
    NewIdIsNowhere(w, s.id);
    CommitEffect(w, s);
    CommitPublished(w.nodes, s.tenant, s.id);
    MapKeepMembers(w.nodes, PublishFate(StagingRids(w.nodes, s.tenant), s.tenant, s.id));
  }

  lemma CommitVersions(w: World, s: Step, m: Node)
    requires ReadyToCommit(w, s) && Replayed(w) && History(w)
    requires m in PublishedNodes(After(w, s)) && m.tenant == s.tenant
    ensures exists x ::
              VersionBy(PublishedChain(w, s.tenant) + [SnapshotOf(w, s.user, s.tenant, s.id)], x, m)
  {
    var rids, next := StagingRids(w.nodes, s.tenant), SnapshotOf(w, s.user, s.tenant, s.id);
    CommitPublishes(w, s);
    var n :| n in w.nodes && PublishFate(rids, s.tenant, s.id)(n) == Some(m);
    PublishFateCases(rids, s.tenant, s.id, n);
    if StagingIn(n, s.tenant) {
      StagedBecomesVersion(w, s, n);
    } else {
      KeepMembers(w.nodes, PublishedNode());
      assert n in PublishedNodes(w) && n.tenant == s.tenant;
      var x :| VersionBy(PublishedChain(w, s.tenant), x, n);
      LastIsKnown(w, s.tenant);
      NewIdIsNowhere(w, s.id);
      ChangesAreExact(w, s, n.rid);
      VersionStays(PublishedChain(w, s.tenant), next, x, n);
    }
  }

  lemma PublishedHasFate(rids: set<string>, tenant: string, id: string, n: Node)
    requires IsPublished(n)
    ensures PublishFate(rids, tenant, id)(n).Some?
  {
    assert Stamp(id)(n).kind == n.kind;
  }

  /** A commit keeps every published version, if not active. */
  lemma VersionPersists(nodes: seq<Node>, rids: set<string>, tenant: string, id: string, t: string, x: Snapshot,
                        r: string)
    requires HasVersion(Keep(nodes, PublishedNode()), t, x, r)
    ensures HasVersion(MapKeep(nodes, PublishFate(rids, tenant, id)), t, x, r)
  {
    var list, fate := Keep(nodes, PublishedNode()), PublishFate(rids, tenant, id);
    var n :| n in list && n.tenant == t && n.rid == r && n.snapshot == Some(x.id);
    KeepMembers(nodes, PublishedNode());
    MapKeepMembers(nodes, fate);
    PublishedHasFate(rids, tenant, id, n);
    PublishFateCases(rids, tenant, id, n);
    assert fate(n).value in MapKeep(nodes, fate);
  }

  /** What is published for another tenant was there before. */
  lemma OthersPublished(nodes: seq<Node>, rids: set<string>, tenant: string, id: string, m: Node)
    requires m in MapKeep(nodes, PublishFate(rids, tenant, id)) && m.tenant != tenant
    ensures m in Keep(nodes, PublishedNode())
  {
    MapKeepMembers(nodes, PublishFate(rids, tenant, id));
    var n :| n in nodes && PublishFate(rids, tenant, id)(n) == Some(m);
    PublishFateCases(rids, tenant, id, n);
    KeepMembers(nodes, PublishedNode());
  }

  lemma NewVersionIsThere(w: World, s: Step, r: string)
    requires ReadyToCommit(w, s) && Lists(SnapshotOf(w, s.user, s.tenant, s.id), r)
    ensures HasVersion(PublishedNodes(After(w, s)), s.tenant, SnapshotOf(w, s.user, s.tenant, s.id), r)
  {
    CommitPublishes(w, s);
    ChangesAreExact(w, s, r);
    var n :| n in w.nodes && StagingIn(n, s.tenant) && n.rid == r;
    StagedIsListed(w, s, n);
    assert NodeOk(n, w);
    assert PublishFate(StagingRids(w.nodes, s.tenant), s.tenant, s.id)(n) == Some(Stamp(s.id)(n));
    assert Stamp(s.id)(n) in PublishedNodes(After(w, s));
  }

  lemma CommitHasVersions(w: World, s: Step, x: Snapshot, r: string)
    requires ReadyToCommit(w, s) && AllVersions(PublishedNodes(w), PublishedChain(w, s.tenant), s.tenant)
    requires x in PublishedChain(w, s.tenant) + [SnapshotOf(w, s.user, s.tenant, s.id)] && Lists(x, r)
    ensures HasVersion(PublishedNodes(After(w, s)), s.tenant, x, r)
  {
    if x in PublishedChain(w, s.tenant) {
      CommitPublishes(w, s);
      VersionPersists(w.nodes, StagingRids(w.nodes, s.tenant), s.tenant, s.id, s.tenant, x, r);
    } else {
      NewVersionIsThere(w, s, r);
    }
  }

  lemma CommittersHistory(w: World, s: Step)
    requires ReadyToCommit(w, s) && Replayed(w) && History(w)
    ensures AllVersions(PublishedNodes(After(w, s)),
                        PublishedChain(w, s.tenant) + [SnapshotOf(w, s.user, s.tenant, s.id)], s.tenant)
  {
    var list, next := PublishedNodes(After(w, s)), SnapshotOf(w, s.user, s.tenant, s.id);
    var chain := PublishedChain(w, s.tenant) + [next];
    forall m | m in list && m.tenant == s.tenant ensures exists x :: VersionBy(chain, x, m) {
      CommitVersions(w, s, m);
    }
    forall x, r | x in chain && Lists(x, r) ensures HasVersion(list, s.tenant, x, r) {
      CommitHasVersions(w, s, x, r);
    }
  }

  /** Nothing changes for another tenant. */
  lemma OthersHistory(w: World, s: Step, chain: seq<Snapshot>, t: string)
    requires ReadyToCommit(w, s) && AllVersions(PublishedNodes(w), chain, t) && t != s.tenant
    ensures AllVersions(PublishedNodes(After(w, s)), chain, t)
  {
    var rids, list := StagingRids(w.nodes, s.tenant), PublishedNodes(After(w, s));
    CommitPublishes(w, s);
    forall m | m in list && m.tenant == t ensures exists x :: VersionBy(chain, x, m) {
      OthersPublished(w.nodes, rids, s.tenant, s.id, m);
    }
    forall x, r | x in chain && Lists(x, r) ensures HasVersion(list, t, x, r) {
      VersionPersists(w.nodes, rids, s.tenant, s.id, t, x, r);
    }
  }

  lemma CommitKeepsVersionsApart(w: World, s: Step, t: string)
    requires ReadyToCommit(w, s) && OneVersionEach(PublishedNodes(w), t)
    ensures OneVersionEach(PublishedNodes(After(w, s)), t)
  {
    CommitEffect(w, s);
    NewIdIsNowhere(w, s.id);
    forall x ensures Unique(Keep(PublishedNodes(After(w, s)), StampedAny(t, x))) {
      CommitKeepsOneVersion(w.nodes, s.tenant, s.id, t, x);
    }
  }

  lemma PublishedChainAfter(w: World, s: Step, t: string)
    requires ReadyToCommit(w, s)
    ensures PublishedChain(After(w, s), t)
         == if t == s.tenant then PublishedChain(w, t) + [SnapshotOf(w, s.user, s.tenant, s.id)]
            else PublishedChain(w, t)
  {
    CommitEffect(w, s);
    ChainAppend(w.snapshots, SnapshotOf(w, s.user, s.tenant, s.id), PointerOf(After(w, s).pointers, t));
  }

  lemma CommitKeepsIds(w: World, s: Step)
    requires ReadyToCommit(w, s) && KnownById(w.snapshots)
    ensures KnownById(After(w, s).snapshots)
  {
    CommitEffect(w, s);
    NewIdIsNowhere(w, s.id);
  }

  lemma CommitKeepsHistory(w: World, s: Step)
    requires ReadyToCommit(w, s) && Replayed(w) && History(w)
    ensures History(After(w, s))
  {
    var w' := After(w, s);
    CommitKeepsIds(w, s);
    forall t
      ensures OneVersionEach(PublishedNodes(w'), t) && AllVersions(PublishedNodes(w'), PublishedChain(w', t), t)
    {
      CommitKeepsVersionsApart(w, s, t);
      PublishedChainAfter(w, s, t);
      if t == s.tenant { CommittersHistory(w, s); } else { OthersHistory(w, s, PublishedChain(w, t), t); }
    }
  }

  /** A rollback-free run in which no discarded staging version reopens published ones. */
  ghost predicate HistoricRun(steps: seq<Step>) {
    PublishingRun(steps) && forall i :: 0 <= i < |steps| ==> !ReopensPublished(AfterAll(EMPTY, steps[..i]), steps[i])
  }

  lemma StepKeepsHistory(w: World, s: Step)
    requires Historic(w) && Publishing(w, s) && !ReopensPublished(w, s)
    ensures Historic(After(w, s))
  {
    StepKeepsSound(w, s);
    StepKeepsReplayed(w, s);
    if IsEdit(s) {
      EditKeepsLive(w, s);
      EditKeepsPublished(w, s);
    } else {
      CommitEffect(w, s);
      if Commits(w, s) { CommitKeepsHistory(w, s); }
    }
  }

  lemma EmptyIsHistoric()
    ensures Historic(EMPTY)
  {
  }

  /**
   After any such run, each tenant's published nodes are one version for every entry of every snapshot of
   its chain, with the recorded content, and a version is active if and only if it is the last of its rid.
   */
  lemma {:induction false} RunsKeepHistory(steps: seq<Step>)
    requires HistoricRun(steps)
    ensures Historic(AfterAll(EMPTY, steps))
  {
    if steps == [] {
      EmptyIsHistoric();
    } else {
      var front := steps[..|steps| - 1];
      assert forall i :: 0 <= i < |front| ==> front[..i] == steps[..i];
      RunsKeepHistory(front);
      StepKeepsHistory(AfterAll(EMPTY, front), steps[|steps| - 1]);
    }
  }

  // ── Rolling back along the chain ──

  /** Nothing is in progress, and the target is one of the tenant's own snapshots. */
  ghost predicate ReadyToRewind(w: World, tenant: string, target: Snapshot) {
    Historic(w) && !Uncommitted(w.nodes, tenant) && target in PublishedChain(w, tenant)
  }

  function Rewound(w: World, tenant: string, target: Snapshot): World {
    After(w, RollbackStep(tenant, target.id))
  }

  /**
   The rid's active version stays active: its last change made one, and is neither the target nor the
   current snapshot.
   */
  predicate Lingers(chain: seq<Snapshot>, target: Snapshot, r: string)
    requires chain != []
  {
    var last := LastChange(chain, r);
    last.Some? && Lists(last.value, r) && last.value != target && last.value != chain[|chain| - 1]
  }

  lemma RewindFacts(w: World, tenant: string, target: Snapshot)
    requires ReadyToRewind(w, tenant, target)
    ensures ReadyToRollBack(w, tenant, target.id)
    ensures var chain := PublishedChain(w, tenant);
            && chain != [] && chain[|chain| - 1].id == Current(w, tenant)
            && forall s :: s in chain ==> s in w.snapshots
  {
    LastIsKnown(w, tenant);
    FoundIsKnown(w.snapshots, target.id);
  }

  lemma NodeIsVersion(w: World, tenant: string, n: Node) returns (s: Snapshot)
    requires Historic(w) && !Uncommitted(w.nodes, tenant) && n in w.nodes && n.tenant == tenant
    ensures VersionBy(PublishedChain(w, tenant), s, n)
  {
    KeepMembers(w.nodes, PublishedNode());
    assert n in PublishedNodes(w) && AllVersions(PublishedNodes(w), PublishedChain(w, tenant), tenant);
    s :| VersionBy(PublishedChain(w, tenant), s, n);
  }

  /** A node is shown after the rollback exactly if it is the target's, or lingers. */
  lemma ShownIsVersion(w: World, tenant: string, target: Snapshot, n: Node) returns (s: Snapshot)
    requires ReadyToRewind(w, tenant, target) && n in w.nodes && n.tenant == tenant
    ensures VersionBy(PublishedChain(w, tenant), s, n)
    ensures StampedAny(tenant, target.id)(n) <==> s == target
    ensures PublishedChain(w, tenant) != []
    ensures Untouched(tenant, Current(w, tenant), target.id, n)
       <==> LastChange(PublishedChain(w, tenant), n.rid) == Some(s) && Lingers(PublishedChain(w, tenant), target, n.rid)
  {
    RewindFacts(w, tenant, target);
    s := NodeIsVersion(w, tenant, n);
    var chain := PublishedChain(w, tenant);
    assert chain[|chain| - 1] in chain;
    assert s in w.snapshots && target in w.snapshots && chain[|chain| - 1] in w.snapshots;
  }

  /** A snapshot of the chain that lists the rid has its one version in the graph. */
  lemma VersionOf(w: World, tenant: string, s: Snapshot, r: string) returns (n: Node)
    requires Historic(w) && s in PublishedChain(w, tenant) && Lists(s, r)
    ensures n in w.nodes && n.tenant == tenant && n.rid == r && VersionBy(PublishedChain(w, tenant), s, n)
  {
    KeepMembers(w.nodes, PublishedNode());
    LastIsKnown(w, tenant);
    assert HasVersion(PublishedNodes(w), tenant, s, r);
    n :| n in PublishedNodes(w) && n.tenant == tenant && n.rid == r && n.snapshot == Some(s.id);
    var x :| VersionBy(PublishedChain(w, tenant), x, n);
    assert x == s;
  }

  lemma TargetVersionsApart(w: World, tenant: string, target: Snapshot)
    requires ReadyToRewind(w, tenant, target)
    ensures TargetIsUnique(w.nodes, tenant, target.id)
  {
    var fate := FateIf(Only(PublishedNode()), StampedAny(tenant, target.id));
    KeepIsFate(w.nodes, PublishedNode());
    KeepAfterFate(w.nodes, Only(PublishedNode()), StampedAny(tenant, target.id));
    UniqueMeansFatesApart(w.nodes, fate);
    forall i, j | 0 <= i < j < |w.nodes|
        && StampedAny(tenant, target.id)(w.nodes[i]) && StampedAny(tenant, target.id)(w.nodes[j])
      ensures w.nodes[i].rid != w.nodes[j].rid
    {
      assert w.nodes[i] in w.nodes && w.nodes[j] in w.nodes;
      assert fate(w.nodes[i]) == Some(w.nodes[i]) && fate(w.nodes[j]) == Some(w.nodes[j]);
    }
  }

  /**
   Going back along the chain keeps one active version per rid exactly when no rid that the target
   published was last changed in between.
   */
  lemma RewindKeepsUniqueExactly(w: World, tenant: string, target: Snapshot)
    requires ReadyToRewind(w, tenant, target)
    ensures PublishedChain(w, tenant) != []
    ensures Unique(LiveNodes(Rewound(w, tenant, target)))
       <==> forall r :: Lists(target, r) ==> !Lingers(PublishedChain(w, tenant), target, r)
  {
    var chain, current := PublishedChain(w, tenant), Current(w, tenant);
    RewindFacts(w, tenant, target);
    TargetVersionsApart(w, tenant, target);
    RollbackKeepsUniqueExactly(w, tenant, target.id);
    if r :| Lists(target, r) && Lingers(chain, target, r) {
      LastIsChange(chain, r);
      var m := VersionOf(w, tenant, target, r);
      var n := VersionOf(w, tenant, LastChange(chain, r).value, r);
      var _ := ShownIsVersion(w, tenant, target, m);
      var _ := ShownIsVersion(w, tenant, target, n);
      assert !NoneBesideTarget(w.nodes, tenant, current, target.id);
    } else {
      forall m, n | m in w.nodes && n in w.nodes && StampedAny(tenant, target.id)(m)
          && Untouched(tenant, current, target.id, n)
        ensures m.rid != n.rid
      {
        var _ := ShownIsVersion(w, tenant, target, m);
        var _ := ShownIsVersion(w, tenant, target, n);
      }
    }
  }

  /** The node is a version that is shown after the rollback. */
  ghost predicate IsShown(w: World, tenant: string, target: Snapshot, r: string, n: Node) {
    ShowsVersion(w.nodes, tenant, Current(w, tenant), target.id, r, n)
  }

  lemma TargetIsShown(w: World, tenant: string, target: Snapshot, r: string) returns (n: Node)
    requires ReadyToRewind(w, tenant, target) && Lists(target, r)
    ensures IsShown(w, tenant, target, r, n) && IsVersion(target, n)
  {
    n := VersionOf(w, tenant, target, r);
  }

  lemma LingeringIsShown(w: World, tenant: string, target: Snapshot, r: string) returns (n: Node)
    requires ReadyToRewind(w, tenant, target) && PublishedChain(w, tenant) != []
    requires Lingers(PublishedChain(w, tenant), target, r)
    ensures IsShown(w, tenant, target, r, n) && IsVersion(LastChange(PublishedChain(w, tenant), r).value, n)
  {
    LastIsChange(PublishedChain(w, tenant), r);
    n := VersionOf(w, tenant, LastChange(PublishedChain(w, tenant), r).value, r);
    var _ := ShownIsVersion(w, tenant, target, n);
  }

  lemma NothingElseIsShown(w: World, tenant: string, target: Snapshot, r: string, n: Node)
    requires ReadyToRewind(w, tenant, target) && IsShown(w, tenant, target, r, n)
    ensures PublishedChain(w, tenant) != []
    ensures Lists(target, r) || Lingers(PublishedChain(w, tenant), target, r)
  {
    ShownCases(tenant, Current(w, tenant), target.id, n);
    var _ := ShownIsVersion(w, tenant, target, n);
  }

  /** Without such a rid, a rid shows the target's version, else the lingering one, else nothing. */
  lemma RewindShows(w: World, tenant: string, target: Snapshot, r: string)
    requires ReadyToRewind(w, tenant, target) && Unique(LiveNodes(Rewound(w, tenant, target)))
    ensures PublishedChain(w, tenant) != []
    ensures var chain, view := PublishedChain(w, tenant), View(Rewound(w, tenant, target), tenant);
            && (r in view <==> Lists(target, r) || Lingers(chain, target, r))
            && (Lists(target, r) ==> view[r] == Core(target.data[r]))
            && (Lingers(chain, target, r) ==> view[r] == Core(LastChange(chain, r).value.data[r]))
  {
    var chain, view := PublishedChain(w, tenant), View(Rewound(w, tenant, target), tenant);
    RewindFacts(w, tenant, target);
    if Lists(target, r) {
      var n := TargetIsShown(w, tenant, target, r);
      ShownInView(w, tenant, target, r, target, n);
    }
    if Lingers(chain, target, r) {
      var n := LingeringIsShown(w, tenant, target, r);
      ShownInView(w, tenant, target, r, LastChange(chain, r).value, n);
    }
    if r in view {
      var n := ViewedIsShown(w, tenant, target, r);
      NothingElseIsShown(w, tenant, target, r, n);
    }
  }

  lemma ShownInView(w: World, tenant: string, target: Snapshot, r: string, s: Snapshot, n: Node)
    requires ReadyToRewind(w, tenant, target) && Unique(LiveNodes(Rewound(w, tenant, target)))
    requires IsShown(w, tenant, target, r, n) && IsVersion(s, n)
    ensures var view := View(Rewound(w, tenant, target), tenant); r in view && view[r] == Core(s.data[r])
  {
    RewindFacts(w, tenant, target);
    RollbackShows(w, tenant, target.id, r);
  }

  lemma ViewedIsShown(w: World, tenant: string, target: Snapshot, r: string) returns (n: Node)
    requires ReadyToRewind(w, tenant, target) && Unique(LiveNodes(Rewound(w, tenant, target)))
    requires r in View(Rewound(w, tenant, target), tenant)
    ensures IsShown(w, tenant, target, r, n)
  {
    RewindFacts(w, tenant, target);
    RollbackShows(w, tenant, target.id, r);
    n :| ShowsVersion(w.nodes, tenant, Current(w, tenant), target.id, r, n);
  }

  /**
   The rid is shown as the target's chain `path` has it: a lingering version has the content of an older
   one, and otherwise the target itself published what its chain shows, or it shows nothing.
   */
  predicate Rewinds(chain: seq<Snapshot>, path: seq<Snapshot>, target: Snapshot, r: string)
    requires chain != []
  {
    var was, last := LastChange(path, r), LastChange(chain, r);
    var shown := was.Some? && Lists(was.value, r);
    if Lingers(chain, target, r) then
      shown && was.value != target && Core(was.value.data[r]) == Core(last.value.data[r])
    else shown ==> was.value == target
  }

  /** The snapshots from the root to the target. */
  function PathTo(w: World, target: Snapshot): seq<Snapshot> {
    Chain(w.snapshots, Some(target.id))
  }

  ghost predicate EndsWith(path: seq<Snapshot>, target: Snapshot) {
    path != [] && path[|path| - 1] == target
  }

  lemma PathEndsAtTarget(w: World, tenant: string, target: Snapshot)
    requires ReadyToRewind(w, tenant, target)
    ensures EndsWith(PathTo(w, target), target)
  {
    var path := PathTo(w, target);
    RewindFacts(w, tenant, target);
    FoundIsKnown(w.snapshots, target.id);
    ChainFollowsParents(w.snapshots, Some(target.id));
    assert path[|path| - 1] in path;
  }

  /**
   A rollback to any snapshot of the chain leaves one active version per rid and exactly the view that
   replaying the target's chain gives, if and only if every rid rewinds.
   */
  lemma {:induction false} RewindIsExact(w: World, tenant: string, target: Snapshot)
    requires ReadyToRewind(w, tenant, target)
    ensures PublishedChain(w, tenant) != []
    ensures var w' := Rewound(w, tenant, target);
            (Unique(LiveNodes(w')) && View(w', tenant) == Replay(PathTo(w, target))
             <==> forall r :: Rewinds(PublishedChain(w, tenant), PathTo(w, target), target, r))
  {
    RewindFacts(w, tenant, target);
    if Unique(LiveNodes(Rewound(w, tenant, target))) {
      UniqueRewindIsExact(w, tenant, target);
    } else {
      var _ := DoubledDoesNotRewind(w, tenant, target);
    }
  }

  lemma DoubledRid(w: World, tenant: string, target: Snapshot) returns (r: string)
    requires ReadyToRewind(w, tenant, target) && !Unique(LiveNodes(Rewound(w, tenant, target)))
    requires PublishedChain(w, tenant) != []
    ensures Lists(target, r) && Lingers(PublishedChain(w, tenant), target, r)
  {
    RewindKeepsUniqueExactly(w, tenant, target);
    r :| Lists(target, r) && Lingers(PublishedChain(w, tenant), target, r);
  }

  lemma DoubledDoesNotRewind(w: World, tenant: string, target: Snapshot) returns (r: string)
    requires ReadyToRewind(w, tenant, target) && !Unique(LiveNodes(Rewound(w, tenant, target)))
    requires PublishedChain(w, tenant) != []
    ensures !Rewinds(PublishedChain(w, tenant), PathTo(w, target), target, r)
  {
    PathEndsAtTarget(w, tenant, target);
    r := DoubledRid(w, tenant, target);
    TargetCannotLinger(PublishedChain(w, tenant), PathTo(w, target), target, r);
  }

  lemma UniqueRewindIsExact(w: World, tenant: string, target: Snapshot)
    requires ReadyToRewind(w, tenant, target) && Unique(LiveNodes(Rewound(w, tenant, target)))
    requires PublishedChain(w, tenant) != []
    ensures View(Rewound(w, tenant, target), tenant) == Replay(PathTo(w, target))
       <==> forall r :: Rewinds(PublishedChain(w, tenant), PathTo(w, target), target, r)
  {
    var view, replay := View(Rewound(w, tenant, target), tenant), Replay(PathTo(w, target));
    forall r ensures Rewinds(PublishedChain(w, tenant), PathTo(w, target), target, r) <==> SameEntry(view, replay, r) {
      RewindsAt(w, tenant, target, r);
    }
    SameEntries(view, replay);
  }

  lemma TargetCannotLinger(chain: seq<Snapshot>, path: seq<Snapshot>, target: Snapshot, r: string)
    requires chain != [] && EndsWith(path, target)
    requires Lists(target, r) && Lingers(chain, target, r)
    ensures !Rewinds(chain, path, target, r)
  {
    assert LastChange(path, r) == Some(target);
  }

  lemma SameEntries(a: map<string, Node>, b: map<string, Node>)
    ensures a == b <==> forall r :: SameEntry(a, b, r)
  {
    if forall r :: SameEntry(a, b, r) {
      forall r ensures r in a <==> r in b { assert SameEntry(a, b, r); }
      forall r | r in a ensures a[r] == b[r] { assert SameEntry(a, b, r); }
    }
  }

  predicate SameEntry(a: map<string, Node>, b: map<string, Node>, r: string) {
    (r in a <==> r in b) && (r in a ==> a[r] == b[r])
  }

  lemma RewindsAt(w: World, tenant: string, target: Snapshot, r: string)
    requires ReadyToRewind(w, tenant, target) && Unique(LiveNodes(Rewound(w, tenant, target)))
    ensures PublishedChain(w, tenant) != []
    ensures var w' := Rewound(w, tenant, target);
            (Rewinds(PublishedChain(w, tenant), PathTo(w, target), target, r)
             <==> SameEntry(View(w', tenant), Replay(PathTo(w, target)), r))
  {
    RewindKeepsUniqueExactly(w, tenant, target);
    RewindShows(w, tenant, target, r);
    ReplayIsLastChange(PathTo(w, target), r);
    PathEndsAtTarget(w, tenant, target);
  }
}
