/** Runs from the empty graph: a rollback that loses an entity, and one that leaves two versions of an entity live. */
module RollbackExample {
  import opened Ordering
  import opened Sequences
  import opened OntologyGraph
  import opened RetriedPromotion
  import opened OntologyService
  import opened OntologyRuns
  import opened OntologyViews
  import opened OntologyReplay
  import opened OntologyRollback

  const TENANT := "t"
  const USER := "u"
  const LABEL := "ObjectType"

  // ── The requests ──

  function CreateOf(rid: string): Step {
    CreateStep(USER, TENANT, LABEL, map["api_name" := rid], rid, "1")
  }

  function SubmitOf(rid: string): Step {
    SubmitStep(USER, TENANT, LABEL, rid, "2")
  }

  function CommitOf(id: string): Step {
    CommitStep(USER, TENANT, id, _ => Clean)
  }

  function LockOf(rid: string): Step {
    LocksStep(map[rid := USER], {})
  }

  function UpdateOf(rid: string): Step {
    UpdateStep(USER, TENANT, LABEL, rid, map["display_name" := "new"], "3")
  }

  function Publication(rid: string, id: string): seq<Step> {
    [CreateOf(rid), SubmitOf(rid), CommitOf(id)]
  }

  /** Publish a, publish b, and stage an update of a. */
  function Preparation(): seq<Step> {
    Publication("a", "s0") + Publication("b", "s1") + [LockOf("a"), UpdateOf("a"), SubmitOf("a")]
  }

  // ── The versions ──

  function Draft(rid: string): Node {
    FreshDraft(LABEL, rid, TENANT, USER, map["api_name" := rid], "1")
  }

  function StagedVersion(rid: string): Node {
    Submitted("2")(Draft(rid))
  }

  function Published(rid: string, id: string): Node {
    Stamp(id)(StagedVersion(rid))
  }

  function UpdateDraft(n: Node): Node {
    CloneDraft(n, USER, map["display_name" := "new"], "3")
  }

  function StagedUpdate(): Node {
    Submitted("2")(UpdateDraft(Published("a", "s0")))
  }

  lemma VersionFacts(rid: string, id: string)
    ensures Draft(rid).isDraft && Draft(rid).owner == Some(USER) && !Live(Draft(rid))
    ensures StagingIn(StagedVersion(rid), TENANT) && StagedVersion(rid).isActive && !StagedVersion(rid).isDraft
    ensures LiveIn(Published(rid, id), TENANT) && Published(rid, id).snapshot == Some(id)
    ensures Published(rid, id).kind == LABEL && Published(rid, id).rid == rid
    ensures "api_name" in Published(rid, id).payload && Published(rid, id).payload["api_name"] == rid
  {
  }

  // ── What the requests do to a store ──

  /** The tenant's nodes, snapshot ids and pointer; nobody is committing. */
  ghost predicate Holds(w: World, nodes: seq<Node>, ids: set<string>, pointer: Option<string>) {
    w.nodes == nodes && Ids(w.snapshots) == ids && PointerOf(w.pointers, TENANT) == pointer && w.committing == {}
  }

  lemma FirstNone(nodes: seq<Node>, p: Node -> bool)
    requires forall n :: n in nodes ==> !p(n)
    ensures First(nodes, p) == None
  {
  }

  lemma FirstLast(nodes: seq<Node>, n: Node, p: Node -> bool)
    requires p(n) && forall m :: m in nodes ==> !p(m)
    ensures First(nodes + [n], p) == Some(n)
  {
    FirstNone(nodes, p);
    FirstAppend(nodes, n, p);
  }

  lemma Creating(w: World, nodes: seq<Node>, ids: set<string>, pointer: Option<string>, rid: string)
    requires Holds(w, nodes, ids, pointer) && rid != ""
    requires forall n :: n in nodes ==> n.rid != rid && !NamedActive(LABEL, TENANT, rid)(n)
    ensures Holds(After(w, CreateOf(rid)), nodes + [Draft(rid)], ids, pointer) && Publishing(w, CreateOf(rid))
  {
    FirstNone(nodes, NamedActive(LABEL, TENANT, rid));
  }

  lemma Submitting(w: World, nodes: seq<Node>, d: Node, ids: set<string>, pointer: Option<string>)
    requires Holds(w, nodes + [d], ids, pointer) && DraftOf(LABEL, d.rid, TENANT, USER)(d)
    requires forall n :: n in nodes ==> !n.isDraft
    ensures Holds(After(w, SubmitOf(d.rid)), nodes + [Submitted("2")(d)], ids, pointer)
    ensures Publishing(w, SubmitOf(d.rid))
  {
    var p := DraftOf(LABEL, d.rid, TENANT, USER);
    FirstLast(nodes, d, p);
    var after := SetWhere(nodes + [d], p, Submitted("2"));
    assert forall i :: 0 <= i < |nodes| ==> after[i] == nodes[i] by {
      forall i | 0 <= i < |nodes| ensures after[i] == nodes[i] { assert nodes[i] in nodes; }
    }
    assert after == nodes + [Submitted("2")(d)];
  }

  lemma NoneKept(nodes: seq<Node>, p: Node -> bool)
    requires forall n :: n in nodes ==> !p(n)
    ensures Keep(nodes, p) == []
  {
    KeepMembers(nodes, p);
    var kept := Keep(nodes, p);
    assert forall n :: n !in kept;
  }

  lemma StagedAtEnd(nodes: seq<Node>, s: Node)
    requires StagingIn(s, TENANT) && forall n :: n in nodes ==> !n.isStaging
    ensures Keep(nodes + [s], Staged(TENANT)) == [s]
    ensures StagingRids(nodes + [s], TENANT) == {s.rid}
  {
    KeepAppend(nodes, s, Staged(TENANT));
    NoneKept(nodes, Staged(TENANT));
    OnlyLastIsStaging(nodes, s);
  }

  lemma OnlyLastIsStaging(nodes: seq<Node>, s: Node)
    requires StagingIn(s, TENANT) && forall n :: n in nodes ==> !n.isStaging
    ensures StagingRids(nodes + [s], TENANT) == {s.rid}
  {
    assert s in nodes + [s];
    forall n | n in nodes + [s] && StagingIn(n, TENANT) ensures n == s {}
  }

  lemma StampsLast(nodes: seq<Node>, s: Node, id: string)
    requires StagingIn(s, TENANT) && forall n :: n in nodes ==> !n.isStaging
    ensures PromoteNodes(nodes + [s], TENANT, id) == nodes + [Stamp(id)(s)]
  {
    var all := nodes + [s];
    forall i | 0 <= i < |nodes| ensures !Staged(TENANT)(all[i]) { assert nodes[i] in nodes && all[i] == nodes[i]; }
  }

  /** Promoting one new entity behind published ones. */
  lemma PromotingNew(nodes: seq<Node>, s: Node, id: string)
    requires StagingIn(s, TENANT) && s.isActive
    requires forall n :: n in nodes ==> !n.isStaging && n.rid != s.rid && n.snapshot != Some(id)
    ensures Promote(nodes + [s], TENANT, id) == nodes + [Stamp(id)(s)]
  {
    var all, promoted := nodes + [s], nodes + [Stamp(id)(s)];
    SupersedesNothing(nodes, s);
    StampsLast(nodes, s, id);
    NothingToClean(nodes, s, id);
    assert PromotePrefix(all, TENANT, id, 3) == Cleanup(PromoteNodes(Deactivate(all, TENANT), TENANT, id), TENANT, id);
  }

  lemma SupersedesNothing(nodes: seq<Node>, s: Node)
    requires StagingIn(s, TENANT) && forall n :: n in nodes ==> !n.isStaging && n.rid != s.rid
    ensures Deactivate(nodes + [s], TENANT) == nodes + [s]
  {
    StagedAtEnd(nodes, s);
    SetNothing(nodes + [s], Superseded({s.rid}, TENANT), SetInactive());
  }

  lemma NothingToClean(nodes: seq<Node>, s: Node, id: string)
    requires s.isActive && forall n :: n in nodes ==> n.snapshot != Some(id)
    ensures Cleanup(nodes + [Stamp(id)(s)], TENANT, id) == nodes + [Stamp(id)(s)]
  {
    KeepEverything(nodes + [Stamp(id)(s)], Not(Stamped(TENANT, id, false)));
  }

  /** A commit of one staged version that promotes to `after`. */
  lemma Committing(w: World, nodes: seq<Node>, s: Node, ids: set<string>, pointer: Option<string>, id: string,
                   after: seq<Node>)
    requires Holds(w, nodes + [s], ids, pointer) && StagingIn(s, TENANT) && id !in ids
    requires forall n :: n in nodes ==> !n.isStaging
    requires Promote(nodes + [s], TENANT, id) == after
    ensures Holds(After(w, CommitOf(id)), after, ids + {id}, Some(id)) && Publishing(w, CommitOf(id))
  {
    StagedAtEnd(nodes, s);
    CleanSucceeds(id);
    CommitEffect(w, CommitOf(id));
    IdsGrow(w.snapshots, SnapshotOf(w, USER, TENANT, id));
  }

  lemma CleanSucceeds(id: string)
    ensures ResultOf(CommitOf(id).script, DEFAULT_MAX_RETRIES + 1) == Succeeded
  {
  }

  lemma Locking(w: World, nodes: seq<Node>, ids: set<string>, pointer: Option<string>, rid: string)
    requires Holds(w, nodes, ids, pointer)
    ensures Holds(After(w, LockOf(rid)), nodes, ids, pointer) && After(w, LockOf(rid)).locks == map[rid := USER]
    ensures Publishing(w, LockOf(rid))
  {
  }

  lemma Updating(w: World, nodes: seq<Node>, n: Node, ids: set<string>, pointer: Option<string>)
    requires Holds(w, [n] + nodes, ids, pointer) && w.locks == map[n.rid := USER]
    requires ActiveVersion(LABEL, n.rid, TENANT)(n)
    requires forall m :: m in nodes ==> !m.isDraft && !m.isStaging
    ensures Holds(After(w, UpdateOf(n.rid)),
                  [n] + nodes + [UpdateDraft(n)], ids, pointer)
    ensures Publishing(w, UpdateOf(n.rid))
  {
    FirstNone([n] + nodes, DraftOf(LABEL, n.rid, TENANT, USER));
    FirstNone([n] + nodes, StagingOf(LABEL, n.rid, TENANT));
    assert First([n] + nodes, ActiveVersion(LABEL, n.rid, TENANT)) == Some(n);
    assert map["display_name" := "new"].Keys * ImmutableFields(LABEL) == {};
  }

  // ── The run ──

  /** Three steps of a publishing run. */
  ghost predicate PublishingThree(w: World, a: Step, b: Step, c: Step) {
    Publishing(w, a) && Publishing(After(w, a), b) && Publishing(After(After(w, a), b), c)
  }

  function AfterThree(w: World, a: Step, b: Step, c: Step): World {
    After(After(After(w, a), b), c)
  }

  lemma RunExtends(steps: seq<Step>, s: Step)
    requires PublishingRun(steps) && Publishing(AfterAll(EMPTY, steps), s)
    ensures PublishingRun(steps + [s])
    ensures AfterAll(EMPTY, steps + [s]) == After(AfterAll(EMPTY, steps), s)
  {
    var longer := steps + [s];
    assert longer[..|steps|] == steps;
    forall i | 0 <= i < |longer| ensures Publishing(AfterAll(EMPTY, longer[..i]), longer[i]) {
      assert longer[..i] == steps[..i];
      assert steps[..|steps|] == steps;
    }
  }

  lemma RunExtendsByTwo(steps: seq<Step>, a: Step, b: Step)
    requires PublishingRun(steps) && Publishing(AfterAll(EMPTY, steps), a)
    requires Publishing(After(AfterAll(EMPTY, steps), a), b)
    ensures PublishingRun(steps + [a, b])
    ensures AfterAll(EMPTY, steps + [a, b]) == After(After(AfterAll(EMPTY, steps), a), b)
  {
    RunExtends(steps, a);
    RunExtends(steps + [a], b);
    assert steps + [a] + [b] == steps + [a, b];
  }

  lemma RunExtendsByThree(steps: seq<Step>, a: Step, b: Step, c: Step)
    requires PublishingRun(steps) && PublishingThree(AfterAll(EMPTY, steps), a, b, c)
    ensures PublishingRun(steps + [a, b, c])
    ensures AfterAll(EMPTY, steps + [a, b, c]) == AfterThree(AfterAll(EMPTY, steps), a, b, c)
  {
    RunExtendsByTwo(steps, a, b);
    RunExtends(steps + [a, b], c);
    assert steps + [a, b] + [c] == steps + [a, b, c];
  }

  /** Creating, submitting and committing a new entity. */
  lemma Publishes(w: World, nodes: seq<Node>, ids: set<string>, pointer: Option<string>, rid: string, id: string)
    requires Holds(w, nodes, ids, pointer) && rid != "" && id !in ids
    requires forall n :: n in nodes ==> !n.isDraft && !n.isStaging && n.rid != rid && n.snapshot != Some(id)
    requires forall n :: n in nodes ==> !NamedActive(LABEL, TENANT, rid)(n)
    ensures PublishingThree(w, CreateOf(rid), SubmitOf(rid), CommitOf(id))
    ensures Holds(AfterThree(w, CreateOf(rid), SubmitOf(rid), CommitOf(id)), nodes + [Published(rid, id)], ids + {id},
                  Some(id))
  {
    var created := After(w, CreateOf(rid));
    VersionFacts(rid, id);
    Creating(w, nodes, ids, pointer, rid);
    Submitting(created, nodes, Draft(rid), ids, pointer);
    PromotingNew(nodes, StagedVersion(rid), id);
    Committing(After(created, SubmitOf(rid)), nodes, StagedVersion(rid), ids, pointer, id,
               nodes + [Published(rid, id)]);
  }

  /** Locking an entity, updating it and submitting the update. */
  lemma StagesUpdate(w: World, a: Node, b: Node, ids: set<string>, pointer: Option<string>)
    requires Holds(w, [a, b], ids, pointer) && ActiveVersion(LABEL, a.rid, TENANT)(a) && Live(b)
    ensures PublishingThree(w, LockOf(a.rid), UpdateOf(a.rid), SubmitOf(a.rid))
    ensures Holds(AfterThree(w, LockOf(a.rid), UpdateOf(a.rid), SubmitOf(a.rid)),
                  [a, b] + [Submitted("2")(UpdateDraft(a))], ids, pointer)
  {
    var locked := After(w, LockOf(a.rid));
    Locking(w, [a, b], ids, pointer, a.rid);
    assert [a, b] == [a] + [b];
    Updating(locked, [b], a, ids, pointer);
    Submitting(After(locked, UpdateOf(a.rid)), [a, b], UpdateDraft(a), ids, pointer);
  }

  function OnePublished(): World {
    AfterThree(EMPTY, CreateOf("a"), SubmitOf("a"), CommitOf("s0"))
  }

  function BothPublished(): World {
    AfterThree(OnePublished(), CreateOf("b"), SubmitOf("b"), CommitOf("s1"))
  }

  function Prepared(): World {
    AfterThree(BothPublished(), LockOf("a"), UpdateOf("a"), SubmitOf("a"))
  }

  lemma FirstPublication()
    ensures PublishingThree(EMPTY, CreateOf("a"), SubmitOf("a"), CommitOf("s0"))
    ensures Holds(OnePublished(), [Published("a", "s0")], {"s0"}, Some("s0"))
  {
    var none: seq<Node> := [];
    assert Ids([]) == {};
    Publishes(EMPTY, none, {}, None, "a", "s0");
    assert none + [Published("a", "s0")] == [Published("a", "s0")];
  }

  lemma SecondPublication(w: World)
    requires Holds(w, [Published("a", "s0")], {"s0"}, Some("s0"))
    ensures PublishingThree(w, CreateOf("b"), SubmitOf("b"), CommitOf("s1"))
    ensures Holds(AfterThree(w, CreateOf("b"), SubmitOf("b"), CommitOf("s1")),
                  [Published("a", "s0"), Published("b", "s1")], {"s0", "s1"}, Some("s1"))
  {
    var a, b := Published("a", "s0"), Published("b", "s1");
    VersionFacts("a", "s0");
    Publishes(w, [a], {"s0"}, Some("s0"), "b", "s1");
    assert [a] + [b] == [a, b] && {"s0"} + {"s1"} == {"s0", "s1"};
  }

  /** Both are published, and an update of a is staged. */
  ghost predicate UpdateStaged(w: World) {
    Holds(w, [Published("a", "s0"), Published("b", "s1")] + [StagedUpdate()], {"s0", "s1"}, Some("s1"))
  }

  lemma ThirdStage(w: World)
    requires Holds(w, [Published("a", "s0"), Published("b", "s1")], {"s0", "s1"}, Some("s1"))
    ensures PublishingThree(w, LockOf("a"), UpdateOf("a"), SubmitOf("a"))
    ensures UpdateStaged(AfterThree(w, LockOf("a"), UpdateOf("a"), SubmitOf("a")))
  {
    VersionFacts("a", "s0");
    VersionFacts("b", "s1");
    StagesUpdate(w, Published("a", "s0"), Published("b", "s1"), {"s0", "s1"}, Some("s1"));
  }

  lemma PreparationRuns()
    ensures PublishingRun(Preparation()) && AfterAll(EMPTY, Preparation()) == Prepared()
    ensures UpdateStaged(Prepared())
  {
    FirstPublication();
    SecondPublication(OnePublished());
    ThirdStage(BothPublished());
    var start: seq<Step> := [];
    RunExtendsByThree(start, CreateOf("a"), SubmitOf("a"), CommitOf("s0"));
    assert start + Publication("a", "s0") == Publication("a", "s0");
    RunExtendsByThree(Publication("a", "s0"), CreateOf("b"), SubmitOf("b"), CommitOf("s1"));
    RunExtendsByThree(Publication("a", "s0") + Publication("b", "s1"), LockOf("a"), UpdateOf("a"), SubmitOf("a"));
  }

  lemma CommitIsAdmissible(w: World, nodes: seq<Node>, ids: set<string>, pointer: Option<string>, id: string)
    requires Holds(w, nodes, ids, pointer) && id !in ids
    ensures Admissible(w, CommitOf(id))
  {
    CleanSucceeds(id);
  }

  lemma OneStaged(w: World, published: seq<Node>, u: Node, ids: set<string>, pointer: Option<string>, id: string)
    requires Holds(w, published + [u], ids, pointer)
    requires StagingIn(u, TENANT) && forall n :: n in published ==> !n.isStaging
    ensures Commits(w, CommitOf(id)) && Unique(Keep(w.nodes, Staged(TENANT)))
  {
    StagedAtEnd(published, u);
    assert Unique([u]);
  }

  lemma ReadyNow(w: World, published: seq<Node>, u: Node, ids: set<string>, pointer: Option<string>, id: string)
    requires Sound(w) && Unique(LiveNodes(w)) && Holds(w, published + [u], ids, pointer)
    requires StagingIn(u, TENANT) && id !in ids && forall n :: n in published ==> !n.isStaging
    ensures ReadyToCommit(w, CommitOf(id))
  {
    OneStaged(w, published, u, ids, pointer, id);
    CommitIsAdmissible(w, published + [u], ids, pointer, id);
  }

  lemma PreparedIsSound()
    ensures Sound(Prepared()) && Unique(LiveNodes(Prepared()))
  {
    PreparationRuns();
    RunsReplay(Preparation());
  }

  lemma CommitIsReady(w: World)
    requires Sound(w) && Unique(LiveNodes(w)) && UpdateStaged(w)
    ensures ReadyToCommit(w, CommitOf("s2"))
  {
    VersionFacts("a", "s0");
    VersionFacts("b", "s1");
    ReadyNow(w, [Published("a", "s0"), Published("b", "s1")], StagedUpdate(), {"s0", "s1"}, Some("s1"), "s2");
  }

  /** Without drafts, settling changes nothing. */
  lemma NothingToSettle(w: World, s: Step)
    requires s.CommitStep? && Admissible(w, s) && Commits(w, s) && s.tenant in w.pointers
    requires forall n :: n in w.nodes ==> !n.isDraft
    ensures CommitThenRollback(w, s) == After(After(w, s), RollbackStep(s.tenant, w.pointers[s.tenant]))
  {
    var after := After(w, s);
    CommitEffect(w, s);
    PromotedLeavesNoStaging(w.nodes, s.tenant, s.id, 3);
    forall n | n in after.nodes ensures Settled(s.tenant)(n) {
      assert NoStaging(after.nodes, s.tenant);
      PromotedFrom(w.nodes, s.tenant, s.id, n);
    }
    KeepEverything(after.nodes, Settled(s.tenant));
  }

  /** The update of an entity that the parent snapshot did not stamp is lost by a rollback to that parent. */
  lemma OlderVersionIsLost(w: World, s: Step, last: Node, staged: Node)
    requires ReadyToCommit(w, s) && s.tenant in w.pointers && forall n :: n in w.nodes ==> !n.isDraft
    requires last in w.nodes && LiveIn(last, s.tenant) && last.snapshot != Some(w.pointers[s.tenant])
    requires staged in w.nodes && StagingIn(staged, s.tenant) && staged.rid == last.rid
    ensures last.rid in View(w, s.tenant)
    ensures last.rid !in View(After(After(w, s), RollbackStep(s.tenant, w.pointers[s.tenant])), s.tenant)
  {
    NothingToSettle(w, s);
    KeepMembers(w.nodes, LiveNode());
    ViewFacts(LiveNodes(w), s.tenant);
    RollbackRestores(w, s, last.rid);
    assert StampedElsewhere(w.nodes, s.tenant, w.pointers[s.tenant], last.rid);
    assert last.rid in StagingRids(w.nodes, s.tenant);
  }

  lemma TwoMoreSteps(steps: seq<Step>, s: Step, r: Step)
    ensures AfterAll(EMPTY, steps + [s, r]) == After(After(AfterAll(EMPTY, steps), s), r)
  {
    var all := steps + [s, r];
    assert all[..|steps| + 1] == steps + [s] && (steps + [s])[..|steps|] == steps;
  }

  /**
   A reachable failure: a was published by s0 and shown by s1; s2 updates it; rolling back from s2 to s1
   leaves no active version of a.
   */
  lemma RollbackCanLose()
    ensures PublishingRun(Preparation() + [CommitOf("s2")])
    ensures "a" in View(AfterAll(EMPTY, Preparation()), TENANT)
    ensures PointerOf(AfterAll(EMPTY, Preparation()).pointers, TENANT) == Some("s1")
    ensures "a" !in View(AfterAll(EMPTY, Preparation() + [CommitOf("s2"), RollbackStep(TENANT, "s1")]), TENANT)
  {
    PreparationRuns();
    PreparedIsSound();
    CommitIsReady(Prepared());
    RunExtends(Preparation(), CommitOf("s2"));
    LosesOlderVersion(Prepared());
    TwoMoreSteps(Preparation(), CommitOf("s2"), RollbackStep(TENANT, "s1"));
  }

  lemma LosesOlderVersion(w: World)
    requires ReadyToCommit(w, CommitOf("s2")) && UpdateStaged(w)
    ensures "a" in View(w, TENANT)
    ensures "a" !in View(After(After(w, CommitOf("s2")), RollbackStep(TENANT, "s1")), TENANT)
  {
    VersionFacts("a", "s0");
    VersionFacts("b", "s1");
    assert Published("a", "s0") in w.nodes && StagedUpdate() in w.nodes;
    OlderVersionIsLost(w, CommitOf("s2"), Published("a", "s0"), StagedUpdate());
  }

  // ── Going back too far ──

  /** The published update of a. */
  function Revision(): Node {
    Stamp("s2")(StagedUpdate())
  }

  /** The version of a that the update superseded. */
  function FirstVersion(): Node {
    SetInactive()(Published("a", "s0"))
  }

  lemma DeactivatesFirst(a: Node, b: Node, u: Node)
    requires LiveIn(a, TENANT) && LiveIn(b, TENANT) && StagingIn(u, TENANT) && u.rid == a.rid != b.rid
    ensures Deactivate([a, b] + [u], TENANT) == [SetInactive()(a), b] + [u]
  {
    var all, p := [a, b] + [u], Superseded({u.rid}, TENANT);
    OnlyLastIsStaging([a, b], u);
    assert p(a) && !p(b) && !p(u);
    assert |all| == 3 && all[0] == a && all[1] == b && all[2] == u;
  }

  /** Promoting an update of the first of two entities. */
  lemma PromotingUpdate(a: Node, b: Node, u: Node, id: string)
    requires LiveIn(a, TENANT) && LiveIn(b, TENANT) && StagingIn(u, TENANT) && u.isActive
    requires u.rid == a.rid != b.rid && a.snapshot != Some(id) && b.snapshot != Some(id)
    ensures Promote([a, b] + [u], TENANT, id) == [SetInactive()(a), b] + [Stamp(id)(u)]
  {
    var all, rest := [a, b] + [u], [SetInactive()(a), b];
    DeactivatesFirst(a, b, u);
    StampsLast(rest, u, id);
    NothingToClean(rest, u, id);
    assert PromotePrefix(all, TENANT, id, 3) == Cleanup(PromoteNodes(Deactivate(all, TENANT), TENANT, id), TENANT, id);
  }

  function Updated(): World {
    After(Prepared(), CommitOf("s2"))
  }

  lemma UpdateIsPublished(w: World)
    requires UpdateStaged(w)
    ensures Holds(After(w, CommitOf("s2")), [FirstVersion(), Published("b", "s1")] + [Revision()], {"s0", "s1", "s2"},
                  Some("s2"))
    ensures Publishing(w, CommitOf("s2"))
  {
    var a, b, u := Published("a", "s0"), Published("b", "s1"), StagedUpdate();
    VersionFacts("a", "s0");
    VersionFacts("b", "s1");
    PromotingUpdate(a, b, u, "s2");
    Committing(w, [a, b], u, {"s0", "s1"}, Some("s1"), "s2", [FirstVersion(), b] + [Revision()]);
    assert {"s0", "s1"} + {"s2"} == {"s0", "s1", "s2"};
  }

  /** Everything published: a twice, b, and last c. */
  ghost predicate AllPublished(w: World) {
    Holds(w, [FirstVersion(), Published("b", "s1")] + [Revision()] + [Published("c", "s3")],
          {"s0", "s1", "s2"} + {"s3"}, Some("s3"))
  }

  lemma LastNameIsFree()
    ensures forall n :: n in [FirstVersion(), Published("b", "s1")] + [Revision()] ==>
              && IsPublished(n) && n.rid != "c" && n.snapshot != Some("s3") && !NamedActive(LABEL, TENANT, "c")(n)
  {
    VersionFacts("a", "s0");
    VersionFacts("b", "s1");
  }

  lemma LastPublication(w: World)
    requires Holds(w, [FirstVersion(), Published("b", "s1")] + [Revision()], {"s0", "s1", "s2"}, Some("s2"))
    ensures PublishingThree(w, CreateOf("c"), SubmitOf("c"), CommitOf("s3"))
    ensures AllPublished(AfterThree(w, CreateOf("c"), SubmitOf("c"), CommitOf("s3")))
  {
    LastNameIsFree();
    Publishes(w, [FirstVersion(), Published("b", "s1")] + [Revision()], {"s0", "s1", "s2"}, Some("s2"), "c", "s3");
  }

  /** Two versions of one rid, the first published by the target, the other by neither it nor the current snapshot. */
  lemma GoingBackDoubles(w: World, nodes: seq<Node>, ids: set<string>, current: string, target: string)
    requires Holds(w, nodes, ids, Some(current)) && target in ids && |nodes| > 2 && nodes[0].rid == nodes[2].rid
    requires forall n :: n in nodes ==> IsPublished(n)
    requires StampedAny(TENANT, target)(nodes[0]) && Untouched(TENANT, current, target, nodes[2])
    ensures !Unique(LiveNodes(After(w, RollbackStep(TENANT, target))))
  {
    FoundIsKnown(w.snapshots, target);
    SkippedUpdateStaysLive(w, TENANT, target, nodes[0], nodes[2]);
  }

  lemma GoingBackTooFar(w: World)
    requires AllPublished(w)
    ensures !Unique(LiveNodes(After(w, RollbackStep(TENANT, "s0"))))
  {
    VersionFacts("a", "s0");
    VersionFacts("c", "s3");
    LastNameIsFree();
    GoingBackDoubles(w, [FirstVersion(), Published("b", "s1")] + [Revision()] + [Published("c", "s3")],
                     {"s0", "s1", "s2"} + {"s3"}, "s3", "s0");
  }

  /** Publish a, b, an update of a, and c. */
  function LongRun(): seq<Step> {
    Preparation() + [CommitOf("s2")] + Publication("c", "s3")
  }

  lemma LongRunPublishes()
    ensures PublishingRun(LongRun()) && AllPublished(AfterAll(EMPTY, LongRun()))
  {
    PreparationRuns();
    UpdateIsPublished(Prepared());
    RunExtends(Preparation(), CommitOf("s2"));
    LastPublication(Updated());
    RunExtendsByThree(Preparation() + [CommitOf("s2")], CreateOf("c"), SubmitOf("c"), CommitOf("s3"));
  }

  lemma OneMoreStep(steps: seq<Step>, s: Step)
    ensures AfterAll(EMPTY, steps + [s]) == After(AfterAll(EMPTY, steps), s)
  {
    assert (steps + [s])[..|steps|] == steps;
  }

  /** A reachable failure: going back from s3 to s0 leaves both versions of a live. */
  lemma RollbackCanDouble()
    ensures PublishingRun(LongRun())
    ensures Unique(LiveNodes(AfterAll(EMPTY, LongRun())))
    ensures !Unique(LiveNodes(AfterAll(EMPTY, LongRun() + [RollbackStep(TENANT, "s0")])))
  {
    LongRunPublishes();
    RunsReplay(LongRun());
    OneMoreStep(LongRun(), RollbackStep(TENANT, "s0"));
    GoingBackTooFar(AfterAll(EMPTY, LongRun()));
  }
}
