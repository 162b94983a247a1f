/** What rolling back to the parent snapshot restores. */
module OntologyRollback {
  import opened Ordering
  import opened Sequences
  import opened OntologyGraph
  import opened RetriedPromotion
  import opened OntologyService
  import opened OntologyRuns
  import opened OntologyViews
  import opened OntologyReplay

  // ── Rollback ──

  /** Versions of the tenant that are not work in progress, and everybody else's. */
  function Settled(tenant: string): Node -> bool {
    (n: Node) => n.tenant != tenant || (!n.isDraft && !n.isStaging)
  }

  /** The world after a commit once the tenant's remaining drafts are gone. */
  function SettledAfter(w: World, s: Step): World
    requires s.CommitStep?
  {
    After(w, s).(nodes := Keep(After(w, s).nodes, Settled(s.tenant)))
  }

  /** Commit, settle, and roll back to the parent. */
  function CommitThenRollback(w: World, s: Step): World
    requires s.CommitStep? && s.tenant in w.pointers
  {
    After(SettledAfter(w, s), RollbackStep(s.tenant, w.pointers[s.tenant]))
  }

  /** Live versions that a commit and its rollback preserve: untouched ones, and those stamped with the target. */
  function Restored(rids: set<string>, tenant: string, target: string): Node -> Option<Node> {
    (n: Node) => if Live(n) && !Outdated(rids, tenant, target, n) then Some(n) else None
  }

  /** The tenant's current snapshot; no id, if nothing was ever published. */
  function Current(w: World, tenant: string): string {
    if tenant in w.pointers then w.pointers[tenant] else ""
  }

  /** A rollback that is not refused: no work in progress, and a known target. */
  ghost predicate ReadyToRollBack(w: World, tenant: string, target: string) {
    !Uncommitted(w.nodes, tenant) && Find(w.snapshots, target).Some?
  }

  lemma RollbackApplies(w: World, tenant: string, target: string)
    requires ReadyToRollBack(w, tenant, target)
    ensures After(w, RollbackStep(tenant, target))
         == w.(nodes := RollbackNodes(w.nodes, tenant, target, Current(w, tenant)),
               pointers := w.pointers[tenant := target])
  {
  }

  lemma SettledWorld(w: World, s: Step)
    requires ReadyToCommit(w, s) && s.tenant in w.pointers
    ensures var settled := SettledAfter(w, s);
            && settled.nodes == Keep(Promote(w.nodes, s.tenant, s.id), Settled(s.tenant))
            && settled.pointers == w.pointers[s.tenant := s.id]
            && Find(settled.snapshots, w.pointers[s.tenant]).Some?
  {
    CommitEffect(w, s);
    IdsGrow(w.snapshots, SnapshotOf(w, s.user, s.tenant, s.id));
    FoundIsKnown(w.snapshots + [SnapshotOf(w, s.user, s.tenant, s.id)], w.pointers[s.tenant]);
  }

  lemma RollbackTakesEffect(w: World, s: Step)
    requires ReadyToCommit(w, s) && s.tenant in w.pointers
    ensures CommitThenRollback(w, s).nodes
         == RollbackNodes(Keep(Promote(w.nodes, s.tenant, s.id), Settled(s.tenant)), s.tenant, w.pointers[s.tenant],
                          s.id)
  {
    var settled := SettledAfter(w, s);
    SettledWorld(w, s);
    SettledIsCommitted(Promote(w.nodes, s.tenant, s.id), s.tenant);
    RollbackApplies(settled, s.tenant, w.pointers[s.tenant]);
  }

  lemma SettledIsCommitted(nodes: seq<Node>, tenant: string)
    ensures !Uncommitted(Keep(nodes, Settled(tenant)), tenant)
  {
    KeepMembers(nodes, Settled(tenant));
  }

  /** The seven steps that a node goes through, and the query for live nodes. */
  function RollbackFate(rids: set<string>, tenant: string, id: string, target: string): Node -> Option<Node> {
    ThenSet(Superseded(rids, tenant), SetInactive(),
      ThenSet(Staged(tenant), Stamp(id),
        ThenKeep(Not(Stamped(tenant, id, false)),
          ThenKeep(Settled(tenant), SwitchFate(tenant, id, target)))))
  }

  /** What becomes of a node under a rollback: off with the current snapshot, on with the target. */
  function SwitchFate(tenant: string, id: string, target: string): Node -> Option<Node> {
    ThenSet(Stamped(tenant, id, true), SetInactive(),
      ThenSet(StampedAny(tenant, target), SetActive(), Only(LiveNode())))
  }

  lemma SwitchIsFate(nodes: seq<Node>, tenant: string, id: string, target: string)
    ensures Keep(RollbackNodes(nodes, tenant, target, id), LiveNode())
         == MapKeep(nodes, SwitchFate(tenant, id, target))
  {
    var off := SetWhere(nodes, Stamped(tenant, id, true), SetInactive());
    KeepIsFate(SetWhere(off, StampedAny(tenant, target), SetActive()), LiveNode());
    FateAfterSet(off, StampedAny(tenant, target), SetActive(), Only(LiveNode()));
    FateAfterSet(nodes, Stamped(tenant, id, true), SetInactive(),
                 ThenSet(StampedAny(tenant, target), SetActive(), Only(LiveNode())));
  }

  lemma RollbackIsFate(nodes: seq<Node>, tenant: string, id: string, target: string)
    ensures Keep(RollbackNodes(Keep(Promote(nodes, tenant, id), Settled(tenant)), tenant, target, id), LiveNode())
         == MapKeep(nodes, RollbackFate(StagingRids(nodes, tenant), tenant, id, target))
  {
    var promoted := Promote(nodes, tenant, id);
    SwitchIsFate(Keep(promoted, Settled(tenant)), tenant, id, target);
    FateAfterKeep(promoted, Settled(tenant), SwitchFate(tenant, id, target));
    PromoteThenFate(nodes, tenant, id, ThenKeep(Settled(tenant), SwitchFate(tenant, id, target)));
  }

  lemma FateIsRestored(rids: set<string>, tenant: string, id: string, target: string, n: Node)
    requires Tidy(n) && id != target && n.snapshot != Some(id)
    requires n.tenant == tenant && !n.isDraft && !n.isStaging && n.snapshot == Some(target) ==> n.isActive
    requires StagingIn(n, tenant) ==> n.rid in rids
    ensures RollbackFate(rids, tenant, id, target)(n) == Restored(rids, tenant, target)(n)
  {
    if StagingIn(n, tenant) {
      assert Stamp(id)(n) == n.(isStaging := false, snapshot := Some(id));
    }
  }

  lemma {:induction false} RollbackLive(w: World, s: Step)
    requires ReadyToCommit(w, s) && s.tenant in w.pointers
    ensures LiveNodes(CommitThenRollback(w, s))
         == MapKeep(w.nodes, Restored(StagingRids(w.nodes, s.tenant), s.tenant, w.pointers[s.tenant]))
  {
    var t, id, target := s.tenant, s.id, w.pointers[s.tenant];
    var rids := StagingRids(w.nodes, t);
    RollbackTakesEffect(w, s);
    RollbackIsFate(w.nodes, t, id, target);
    forall n | n in w.nodes ensures RollbackFate(rids, t, id, target)(n) == Restored(rids, t, target)(n) {
      assert NodeOk(n, w);
      assert StagingIn(n, t) ==> n.rid in rids;
      FateIsRestored(rids, t, id, target, n);
    }
    SameFates(w.nodes, RollbackFate(rids, t, id, target), Restored(rids, t, target));
  }

  /** What rolling back to the parent restores: all but staged rids whose old version is older than the parent. */
  lemma {:induction false} RollbackRestores(w: World, s: Step, r: string)
    requires ReadyToCommit(w, s) && s.tenant in w.pointers
    ensures var before, after := View(w, s.tenant), View(CommitThenRollback(w, s), s.tenant);
            var lost := r in StagingRids(w.nodes, s.tenant)
                        && StampedElsewhere(w.nodes, s.tenant, w.pointers[s.tenant], r);
            && (r in after <==> r in before && !lost)
            && (r in after ==> after[r] == before[r])
  {
    RollbackLive(w, s);
    RestoredView(w.nodes, StagingRids(w.nodes, s.tenant), s.tenant, w.pointers[s.tenant], r);
  }

  /** Published by a snapshot other than `target`, among the rids in question. */
  predicate Outdated(rids: set<string>, t: string, target: string, n: Node) {
    n.tenant == t && n.rid in rids && n.snapshot != Some(target)
  }

  /** The rid's live version was published by some other snapshot than `target`. */
  ghost predicate StampedElsewhere(nodes: seq<Node>, tenant: string, target: string, r: string) {
    exists n :: n in nodes && LiveIn(n, tenant) && n.rid == r && n.snapshot != Some(target)
  }

  lemma RestoredView(nodes: seq<Node>, rids: set<string>, t: string, target: string, r: string)
    requires Unique(Keep(nodes, LiveNode()))
    ensures var before := ViewFrom(Keep(nodes, LiveNode()), t);
            var after := ViewFrom(MapKeep(nodes, Restored(rids, t, target)), t);
            && (r in after <==> r in before && !(r in rids && StampedElsewhere(nodes, t, target, r)))
            && (r in after ==> after[r] == before[r])
  {
    var live, live' := Keep(nodes, LiveNode()), MapKeep(nodes, Restored(rids, t, target));
    RestoredUnique(nodes, rids, t, target);
    RestoredMembers(nodes, rids, t, target);
    ViewFacts(live, t);
    ViewFacts(live', t);
    if Listed(live', t, r) {
      var n :| n in live' && n.tenant == t && n.rid == r;
      assert n in live;
      RestoredNotLost(nodes, rids, t, target, n);
    } else if Listed(live, t, r) {
      var n :| n in live && n.tenant == t && n.rid == r;
      KeepMembers(nodes, LiveNode());
      assert Outdated(rids, t, target, n);
    }
  }

  lemma RestoredNotLost(nodes: seq<Node>, rids: set<string>, t: string, target: string, n: Node)
    requires Unique(Keep(nodes, LiveNode()))
    requires n in Keep(nodes, LiveNode()) && n.tenant == t && !Outdated(rids, t, target, n)
    ensures !(n.rid in rids && StampedElsewhere(nodes, t, target, n.rid))
  {
    KeepMembers(nodes, LiveNode());
    if n.rid in rids && StampedElsewhere(nodes, t, target, n.rid) {
      var m :| m in nodes && LiveIn(m, t) && m.rid == n.rid && m.snapshot != Some(target);
      OnlyOne(Keep(nodes, LiveNode()), m, n);
    }
  }

  lemma RestoredMembers(nodes: seq<Node>, rids: set<string>, t: string, target: string)
    ensures forall n :: n in MapKeep(nodes, Restored(rids, t, target))
              <==> n in Keep(nodes, LiveNode()) && !Outdated(rids, t, target, n)
  {
    var fate := Restored(rids, t, target);
    MapKeepMembers(nodes, fate);
    KeepMembers(nodes, LiveNode());
    forall n: Node | n in nodes && Live(n) && !Outdated(rids, t, target, n)
      ensures n in MapKeep(nodes, fate)
    {
      assert fate(n) == Some(n);
    }
  }

  lemma RestoredUnique(nodes: seq<Node>, rids: set<string>, tenant: string, target: string)
    requires Unique(Keep(nodes, LiveNode()))
    ensures Unique(MapKeep(nodes, Restored(rids, tenant, target)))
  {
    var fate := Restored(rids, tenant, target);
    KeepIsFate(nodes, LiveNode());
    UniqueMeansFatesApart(nodes, Only(LiveNode()));
    forall i, j | 0 <= i < j < |nodes| && fate(nodes[i]).Some? && fate(nodes[j]).Some?
      ensures !SameEntity(fate(nodes[i]).value, fate(nodes[j]).value)
    {
      assert Only(LiveNode())(nodes[i]) == Some(nodes[i]) && Only(LiveNode())(nodes[j]) == Some(nodes[j]);
    }
    UniqueFates(nodes, fate);
  }

  /**
   Rolling back to the parent restores the view from before the commit if and only if every rid
   the commit updated or deleted had its superseded version published by that parent.
   */
  lemma {:induction false} RollbackIsExact(w: World, s: Step)
    requires ReadyToCommit(w, s) && s.tenant in w.pointers
    ensures View(CommitThenRollback(w, s), s.tenant) == View(w, s.tenant)
       <==> forall r :: r in SnapshotOf(w, s.user, s.tenant, s.id).changes
                        ==> !StampedElsewhere(w.nodes, s.tenant, w.pointers[s.tenant], r)
  {
    var before, after := View(w, s.tenant), View(CommitThenRollback(w, s), s.tenant);
    var changes := SnapshotOf(w, s.user, s.tenant, s.id).changes;
    forall r ensures r in changes <==> r in StagingRids(w.nodes, s.tenant) { ChangesAreExact(w, s, r); }
    forall r | r in after ensures r in before && after[r] == before[r] { RollbackRestores(w, s, r); }
    if r :| r in changes && StampedElsewhere(w.nodes, s.tenant, w.pointers[s.tenant], r) {
      RollbackRestores(w, s, r);
      ViewFacts(LiveNodes(w), s.tenant);
      KeepMembers(w.nodes, LiveNode());
      assert r in before && r !in after;
    } else {
      forall r | r in before ensures r in after { RollbackRestores(w, s, r); }
    }
  }

  /** What the commit only created disappears again. */
  lemma {:induction false} RollbackDropsCreated(w: World, s: Step, r: string)
    requires ReadyToCommit(w, s) && s.tenant in w.pointers
    requires var changes := SnapshotOf(w, s.user, s.tenant, s.id).changes; r in changes && changes[r] == Created
    ensures r in View(After(w, s), s.tenant) && r !in View(CommitThenRollback(w, s), s.tenant)
  {
    ChangesAreExact(w, s, r);
    RollbackRestores(w, s, r);
  }

  // ── Rolling back to any snapshot ──

  /** Versions that a rollback from `current` to `target` leaves or makes live. */
  function ShownAfter(tenant: string, current: string, target: string): Node -> Option<Node> {
    (n: Node) =>
      if n.tenant == tenant && n.snapshot == Some(target) then Some(n.(isActive := true))
      else if Live(n) && !(n.tenant == tenant && n.snapshot == Some(current)) then Some(n)
      else None
  }

  /** Whatever the target, the live versions afterwards are its own and those of all snapshots but the current one. */
  lemma RollbackAnywhere(w: World, tenant: string, target: string)
    requires ReadyToRollBack(w, tenant, target)
    ensures LiveNodes(After(w, RollbackStep(tenant, target)))
         == MapKeep(w.nodes, ShownAfter(tenant, Current(w, tenant), target))
  {
    var current := Current(w, tenant);
    RollbackApplies(w, tenant, target);
    SwitchIsFate(w.nodes, tenant, current, target);
    forall n | n in w.nodes ensures SwitchFate(tenant, current, target)(n) == ShownAfter(tenant, current, target)(n) {
      SwitchShows(tenant, current, target, n);
    }
    SameFates(w.nodes, SwitchFate(tenant, current, target), ShownAfter(tenant, current, target));
  }

  lemma SwitchShows(tenant: string, current: string, target: string, n: Node)
    requires n.tenant == tenant ==> !n.isDraft && !n.isStaging
    ensures SwitchFate(tenant, current, target)(n) == ShownAfter(tenant, current, target)(n)
  {
    assert n.isActive ==> n.(isActive := true) == n;
  }

  /** No two nodes with the target's stamp are versions of one rid. */
  ghost predicate TargetIsUnique(nodes: seq<Node>, tenant: string, target: string) {
    forall i, j :: 0 <= i < j < |nodes| && StampedAny(tenant, target)(nodes[i]) && StampedAny(tenant, target)(nodes[j])
      ==> nodes[i].rid != nodes[j].rid
  }

  /** A live version that the rollback does not touch: neither the target's nor the current snapshot's. */
  predicate Untouched(tenant: string, current: string, target: string, n: Node) {
    LiveIn(n, tenant) && n.snapshot !in {Some(target), Some(current)}
  }

  ghost predicate NoneBesideTarget(nodes: seq<Node>, tenant: string, current: string, target: string) {
    forall m, n :: m in nodes && n in nodes && StampedAny(tenant, target)(m) && Untouched(tenant, current, target, n)
      ==> m.rid != n.rid
  }

  /** How a version gets to be shown after the rollback. */
  lemma ShownCases(tenant: string, current: string, target: string, n: Node)
    requires ShownAfter(tenant, current, target)(n).Some?
    ensures SameEntity(n, ShownAfter(tenant, current, target)(n).value)
    ensures StampedAny(tenant, target)(n) || Untouched(tenant, current, target, n) || (Live(n) && n.tenant != tenant)
  {
  }

  /**
   One active version per rid survives a rollback exactly when the target has one version per rid, and
   none of its rids has a live version by a third snapshot.
   */
  lemma RollbackKeepsUniqueExactly(w: World, tenant: string, target: string)
    requires ReadyToRollBack(w, tenant, target) && Unique(LiveNodes(w))
    ensures Unique(LiveNodes(After(w, RollbackStep(tenant, target))))
       <==> TargetIsUnique(w.nodes, tenant, target)
            && NoneBesideTarget(w.nodes, tenant, Current(w, tenant), target)
  {
    var current := Current(w, tenant);
    var fate := ShownAfter(tenant, current, target);
    RollbackAnywhere(w, tenant, target);
    if TargetIsUnique(w.nodes, tenant, target) && NoneBesideTarget(w.nodes, tenant, current, target) {
      ShownApart(w.nodes, tenant, current, target);
      UniqueFates(w.nodes, fate);
    }
    if Unique(MapKeep(w.nodes, fate)) {
      UniqueMeansFatesApart(w.nodes, fate);
      ApartIsUnique(w.nodes, tenant, current, target);
    }
  }

  lemma ShownApart(nodes: seq<Node>, tenant: string, current: string, target: string)
    requires Unique(Keep(nodes, LiveNode())) && TargetIsUnique(nodes, tenant, target)
    requires NoneBesideTarget(nodes, tenant, current, target)
    ensures FatesApart(nodes, ShownAfter(tenant, current, target))
  {
    var fate := ShownAfter(tenant, current, target);
    KeepIsFate(nodes, LiveNode());
    UniqueMeansFatesApart(nodes, Only(LiveNode()));
    forall i, j | 0 <= i < j < |nodes| && fate(nodes[i]).Some? && fate(nodes[j]).Some?
      ensures !SameEntity(fate(nodes[i]).value, fate(nodes[j]).value)
    {
      var m, n := nodes[i], nodes[j];
      assert m in nodes && n in nodes;
      ShownCases(tenant, current, target, m);
      ShownCases(tenant, current, target, n);
      if Live(m) && Live(n) {
        assert Only(LiveNode())(m) == Some(m) && Only(LiveNode())(n) == Some(n);
      }
    }
  }

  lemma ApartIsUnique(nodes: seq<Node>, tenant: string, current: string, target: string)
    requires FatesApart(nodes, ShownAfter(tenant, current, target))
    ensures TargetIsUnique(nodes, tenant, target) && NoneBesideTarget(nodes, tenant, current, target)
  {
    var fate := ShownAfter(tenant, current, target);
    forall i, j | 0 <= i < j < |nodes| && StampedAny(tenant, target)(nodes[i]) && StampedAny(tenant, target)(nodes[j])
      ensures nodes[i].rid != nodes[j].rid
    {
      assert !SameEntity(fate(nodes[i]).value, fate(nodes[j]).value);
    }
    forall m, n | m in nodes && n in nodes && StampedAny(tenant, target)(m) && Untouched(tenant, current, target, n)
      ensures m.rid != n.rid
    {
      var i :| 0 <= i < |nodes| && nodes[i] == m;
      var j :| 0 <= j < |nodes| && nodes[j] == n;
      var k, l := if i < j then i else j, if i < j then j else i;
      assert !SameEntity(fate(nodes[k]).value, fate(nodes[l]).value);
    }
  }

  /** Going back past the snapshot that updated an entity leaves both versions live. */
  lemma SkippedUpdateStaysLive(w: World, tenant: string, target: string, m: Node, n: Node)
    requires ReadyToRollBack(w, tenant, target) && m in w.nodes && n in w.nodes && m.rid == n.rid
    requires StampedAny(tenant, target)(m) && Untouched(tenant, Current(w, tenant), target, n)
    ensures !Unique(LiveNodes(After(w, RollbackStep(tenant, target))))
  {
    var fate := ShownAfter(tenant, Current(w, tenant), target);
    RollbackAnywhere(w, tenant, target);
    if Unique(MapKeep(w.nodes, fate)) {
      UniqueMeansFatesApart(w.nodes, fate);
      ApartIsUnique(w.nodes, tenant, Current(w, tenant), target);
    }
  }

  /** A version of the rid that a rollback from `current` to `target` leaves or makes live. */
  ghost predicate ShowsVersion(nodes: seq<Node>, tenant: string, current: string, target: string, r: string, n: Node) {
    n in nodes && n.tenant == tenant && n.rid == r && ShownAfter(tenant, current, target)(n).Some?
  }

  lemma ShownView(nodes: seq<Node>, tenant: string, current: string, target: string, r: string, live: seq<Node>)
    requires live == MapKeep(nodes, ShownAfter(tenant, current, target)) && Unique(live)
    ensures r in ViewFrom(live, tenant) <==> exists n :: ShowsVersion(nodes, tenant, current, target, r, n)
    ensures forall n :: ShowsVersion(nodes, tenant, current, target, r, n) ==>
              r in ViewFrom(live, tenant) && ViewFrom(live, tenant)[r] == Core(n.(isActive := true))
  {
    var fate := ShownAfter(tenant, current, target);
    MapKeepMembers(nodes, fate);
    forall n | ShowsVersion(nodes, tenant, current, target, r, n)
      ensures r in ViewFrom(live, tenant) && ViewFrom(live, tenant)[r] == Core(n.(isActive := true))
    {
      assert fate(n) == Some(n.(isActive := true));
      ViewShows(live, tenant, n.(isActive := true));
    }
    ViewListed(live, tenant, r);
    if Listed(live, tenant, r) {
      var m :| m in live && m.tenant == tenant && m.rid == r;
      var n :| n in nodes && fate(n) == Some(m);
      assert ShowsVersion(nodes, tenant, current, target, r, n);
    }
  }

  /** If it survives, each rid shows its version of the target, else its live one of another snapshot, else nothing. */
  lemma RollbackShows(w: World, tenant: string, target: string, r: string)
    requires ReadyToRollBack(w, tenant, target)
    requires Unique(LiveNodes(After(w, RollbackStep(tenant, target))))
    ensures var view, current := View(After(w, RollbackStep(tenant, target)), tenant), Current(w, tenant);
            && (r in view <==> exists n :: ShowsVersion(w.nodes, tenant, current, target, r, n))
            && forall n :: ShowsVersion(w.nodes, tenant, current, target, r, n) ==>
                 r in view && view[r] == Core(n.(isActive := true))
  {
    RollbackAnywhere(w, tenant, target);
    ShownView(w.nodes, tenant, Current(w, tenant), target, r, LiveNodes(After(w, RollbackStep(tenant, target))));
  }
}
