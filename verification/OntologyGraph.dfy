/** The versioned node store: every statement the repository sends, as one update of a node list. */
module OntologyGraph {
  import opened Ordering
  import opened Sequences

  /** A version of an entity; the payload is everything that is not version bookkeeping. */
  datatype Node = Node(kind: string, rid: string, tenant: string,
                       isDraft: bool, isStaging: bool, isActive: bool,
                       owner: Option<string>, snapshot: Option<string>, parent: Option<string>,
                       payload: map<string, string>)

  predicate Live(n: Node) {
    !n.isDraft && !n.isStaging && n.isActive
  }

  /** Neither draft nor staging. */
  predicate IsPublished(n: Node) {
    !n.isDraft && !n.isStaging
  }

  predicate LiveIn(n: Node, tenant: string) {
    n.tenant == tenant && Live(n)
  }

  predicate StagingIn(n: Node, tenant: string) {
    n.tenant == tenant && n.isStaging
  }

  /** Versions of one entity. */
  predicate SameEntity(m: Node, n: Node) {
    m.tenant == n.tenant && m.rid == n.rid
  }

  // ── Generic statements ──

  /** `after` is `before` without the matches: all copies of the others, in their order. */
  ghost predicate OnlyMissing(after: seq<Node>, before: seq<Node>, p: Node -> bool) {
    (forall n :: multiset(after)[n] == if p(n) then 0 else multiset(before)[n]) && InOrder(after, before)
  }

  /** Deleting the matches of `p` removes every copy of them, and nothing else, and keeps the order. */
  lemma DeletesOnlyMatches(nodes: seq<Node>, p: Node -> bool)
    ensures OnlyMissing(Keep(nodes, Not(p)), nodes, p)
  {
    KeepCounts(nodes, Not(p));
    KeepInOrder(nodes, Not(p));
  }

  /** `MATCH (n) WHERE p SET n = f(n)`. */
  function SetWhere(nodes: seq<Node>, p: Node -> bool, f: Node -> Node): seq<Node> {
    seq(|nodes|, i requires 0 <= i < |nodes| => if p(nodes[i]) then f(nodes[i]) else nodes[i])
  }

  /** `result.single()`: the first match. */
  function First(nodes: seq<Node>, p: Node -> bool): (r: Option<Node>)
    ensures r.Some? ==> r.value in nodes && p(r.value)
    ensures r.None? ==> forall n :: n in nodes ==> !p(n)
  {
    if nodes == [] then None
    else if p(nodes[0]) then Some(nodes[0])
    else First(nodes[1..], p)
  }

  function Not(p: Node -> bool): Node -> bool {
    (n: Node) => !p(n)
  }

  /** Property filters of a MATCH; an absent filter accepts everything. */
  function Matching(kind: string, rid: string, tenant: string, isDraft: Option<bool>, isStaging: Option<bool>,
                    owner: Option<string>): Node -> bool
  {
    (n: Node) => n.kind == kind && n.rid == rid && n.tenant == tenant
         && (isDraft.Some? ==> n.isDraft == isDraft.value)
         && (isStaging.Some? ==> n.isStaging == isStaging.value)
         && (owner.Some? ==> n.owner == owner)
  }

  function ActiveVersion(kind: string, rid: string, tenant: string): Node -> bool {
    (n: Node) => n.kind == kind && n.rid == rid && LiveIn(n, tenant)
  }

  function LiveNode(): Node -> bool {
    (n: Node) => Live(n)
  }

  function Staged(tenant: string): Node -> bool {
    (n: Node) => StagingIn(n, tenant)
  }

  // ── Promotion and rollback ──

  function StagingRids(nodes: seq<Node>, tenant: string): set<string> {
    set n | n in nodes && StagingIn(n, tenant) :: n.rid
  }

  function Superseded(rids: set<string>, tenant: string): Node -> bool {
    (n: Node) => LiveIn(n, tenant) && n.rid in rids
  }

  function SetInactive(): Node -> Node {
    (n: Node) => n.(isActive := false)
  }

  function SetActive(): Node -> Node {
    (n: Node) => n.(isActive := true)
  }

  function Stamp(snapshot: string): Node -> Node {
    (n: Node) => n.(isStaging := false, snapshot := Some(snapshot))
  }

  function Stamped(tenant: string, snapshot: string, active: bool): Node -> bool {
    (n: Node) => n.tenant == tenant && n.snapshot == Some(snapshot) && n.isActive == active
  }

  function StampedAny(tenant: string, snapshot: string): Node -> bool {
    (n: Node) => n.tenant == tenant && n.snapshot == Some(snapshot)
  }

  function Deactivate(nodes: seq<Node>, tenant: string): seq<Node> {
    SetWhere(nodes, Superseded(StagingRids(nodes, tenant), tenant), SetInactive())
  }

  function PromoteNodes(nodes: seq<Node>, tenant: string, snapshot: string): seq<Node> {
    SetWhere(nodes, Staged(tenant), Stamp(snapshot))
  }

  function Cleanup(nodes: seq<Node>, tenant: string, snapshot: string): seq<Node> {
    Keep(nodes, Not(Stamped(tenant, snapshot, false)))
  }

  /** The first `k` of the three promotion statements. */
  function PromotePrefix(nodes: seq<Node>, tenant: string, snapshot: string, k: nat): seq<Node> {
    if k == 0 then nodes
    else if k == 1 then Deactivate(nodes, tenant)
    else if k == 2 then PromoteNodes(Deactivate(nodes, tenant), tenant, snapshot)
    else Cleanup(PromoteNodes(Deactivate(nodes, tenant), tenant, snapshot), tenant, snapshot)
  }

  function Promote(nodes: seq<Node>, tenant: string, snapshot: string): seq<Node> {
    PromotePrefix(nodes, tenant, snapshot, 3)
  }

  function RollbackNodes(nodes: seq<Node>, tenant: string, target: string, current: string): seq<Node> {
    SetWhere(SetWhere(nodes, Stamped(tenant, current, true), SetInactive()), StampedAny(tenant, target), SetActive())
  }

  // ── The repository ──

  /** How one promotion attempt ends: cleanly, or with an error after some statements took effect. */
  datatype Attempt = Clean | Transient(applied: nat) | Fatal(applied: nat)

  /** How many statements an attempt gets through. */
  function Reach(a: Attempt): nat {
    if a.Clean? then 3 else a.applied
  }

  class GraphRepository {
    var nodes: seq<Node>

    constructor ()
      ensures nodes == []
    {
      nodes := [];
    }

    method CreateNode(n: Node)
      modifies this
      ensures nodes == old(nodes) + [n]
    {
      nodes := nodes + [n];
    }

    method GetActiveNode(kind: string, rid: string, tenant: string) returns (r: Option<Node>)
      ensures r == First(nodes, ActiveVersion(kind, rid, tenant))
    {
      r := First(nodes, ActiveVersion(kind, rid, tenant));
    }

    method GetDraftNode(kind: string, rid: string, tenant: string, user: string) returns (r: Option<Node>)
      ensures r == First(nodes, Matching(kind, rid, tenant, Some(true), None, Some(user)))
    {
      r := First(nodes, Matching(kind, rid, tenant, Some(true), None, Some(user)));
    }

    method GetStagingNode(kind: string, rid: string, tenant: string) returns (r: Option<Node>)
      ensures r == First(nodes, Matching(kind, rid, tenant, None, Some(true), None))
    {
      r := First(nodes, Matching(kind, rid, tenant, None, Some(true), None));
    }

    /** Changes every match and returns the first one, if any. */
    method UpdateNode(p: Node -> bool, f: Node -> Node) returns (r: Option<Node>)
      modifies this
      ensures nodes == SetWhere(old(nodes), p, f)
      ensures r == (match First(old(nodes), p) case Some(n) => Some(f(n)) case None => None)
    {
      var first := First(nodes, p);
      nodes := SetWhere(nodes, p, f);
      r := match first case Some(n) => Some(f(n)) case None => None;
    }

    /** Deletes every match; true when there was one. */
    method DeleteNode(p: Node -> bool) returns (deleted: bool)
      modifies this
      ensures nodes == Keep(old(nodes), Not(p))
      ensures deleted <==> First(old(nodes), p).Some?
    {
      deleted := First(nodes, p).Some?;
      nodes := Keep(nodes, Not(p));
    }

    method GetStagingNodes(tenant: string) returns (r: seq<Node>)
      ensures r == Keep(nodes, Staged(tenant))
    {
      r := Keep(nodes, Staged(tenant));
    }

    /** One attempt at the three statements of a promotion. */
    method PromoteStagingToActive(tenant: string, snapshot: string, attempt: Attempt) returns (ok: bool)
      modifies this
      ensures ok == attempt.Clean?
      ensures nodes == PromotePrefix(old(nodes), tenant, snapshot, Reach(attempt))
    {
      ok := attempt.Clean?;
      if !ok && attempt.applied == 0 { return; }
      nodes := SetWhere(nodes, Superseded(StagingRids(nodes, tenant), tenant), SetInactive());
      if !ok && attempt.applied == 1 { return; }
      nodes := SetWhere(nodes, Staged(tenant), Stamp(snapshot));
      if !ok && attempt.applied == 2 { return; }
      nodes := Keep(nodes, Not(Stamped(tenant, snapshot, false)));
    }

    method RollbackToSnapshot(tenant: string, target: string, current: string)
      modifies this
      ensures nodes == RollbackNodes(old(nodes), tenant, target, current)
      ensures |nodes| == |old(nodes)|
      ensures forall i :: 0 <= i < |nodes| ==>
                nodes[i] == old(nodes[i]).(isActive := StampedAny(tenant, target)(old(nodes[i]))
                                           || (old(nodes[i]).isActive && !StampedAny(tenant, current)(old(nodes[i]))))
    {
      nodes := SetWhere(nodes, Stamped(tenant, current, true), SetInactive());
      nodes := SetWhere(nodes, StampedAny(tenant, target), SetActive());
    }

    method HasUncommittedChanges(tenant: string) returns (r: bool)
      ensures r <==> exists n :: n in nodes && n.tenant == tenant && (n.isDraft || n.isStaging)
    {
      r := exists n :: n in nodes && n.tenant == tenant && (n.isDraft || n.isStaging);
    }
  }

  // ── Laws of the statements ──

  lemma SetFront(nodes: seq<Node>, p: Node -> bool, f: Node -> Node)
    requires nodes != []
    ensures var k := |nodes| - 1;
            SetWhere(nodes, p, f) == SetWhere(nodes[..k], p, f) + [if p(nodes[k]) then f(nodes[k]) else nodes[k]]
  {
  }

  /** An update that stays outside a query does not change its answer. */
  lemma {:induction false} KeepIgnoresSet(nodes: seq<Node>, p: Node -> bool, f: Node -> Node, q: Node -> bool)
    requires forall n :: n in nodes && p(n) ==> !q(n) && !q(f(n))
    ensures Keep(SetWhere(nodes, p, f), q) == Keep(nodes, q)
  {
    if nodes == [] {
    } else {
      var k := |nodes| - 1;
      assert forall n :: n in nodes[..k] ==> n in nodes;
      KeepIgnoresSet(nodes[..k], p, f, q);
      SetFront(nodes, p, f);
      KeepAppend(SetWhere(nodes[..k], p, f), if p(nodes[k]) then f(nodes[k]) else nodes[k], q);
    }
  }

  /** A deletion outside a query does not change its answer. */
  lemma {:induction false} KeepIgnoresDelete(nodes: seq<Node>, p: Node -> bool, q: Node -> bool)
    requires forall n :: n in nodes && p(n) ==> !q(n)
    ensures Keep(Keep(nodes, Not(p)), q) == Keep(nodes, q)
  {
    if nodes == [] {
    } else {
      var front, last := nodes[..|nodes| - 1], nodes[|nodes| - 1];
      assert forall n :: n in front ==> n in nodes;
      KeepIgnoresDelete(front, p, q);
      var kept := Keep(front, Not(p));
      KeepAppend(kept, last, q);
      assert p(last) ==> Keep(nodes, Not(p)) == kept;
      assert !p(last) ==> Keep(nodes, Not(p)) == kept + [last];
    }
  }

  lemma SetNothing(nodes: seq<Node>, p: Node -> bool, f: Node -> Node)
    requires forall n :: n in nodes ==> !p(n)
    ensures SetWhere(nodes, p, f) == nodes
  {
  }

  /** A query for live nodes only looks at the live nodes. */
  lemma {:induction false} FirstAmongLive(nodes: seq<Node>, p: Node -> bool)
    requires forall n :: n in nodes && p(n) ==> Live(n)
    ensures First(nodes, p) == First(Keep(nodes, LiveNode()), p)
  {
    if nodes == [] {
    } else {
      var front, last := nodes[..|nodes| - 1], nodes[|nodes| - 1];
      assert forall n :: n in front ==> n in nodes;
      FirstAmongLive(front, p);
      FirstAppend(front, last, p);
      assert nodes == front + [last] && last in nodes;
      var live := Keep(front, LiveNode());
      FirstAppend(live, last, p);
      assert Keep(nodes, LiveNode()) == if Live(last) then live + [last] else live;
    }
  }

  lemma {:induction false} FirstAppend(a: seq<Node>, n: Node, p: Node -> bool)
    ensures First(a + [n], p) == if First(a, p).Some? then First(a, p) else if p(n) then Some(n) else None
  {
    if a == [] {
      assert (a + [n])[1..] == [];
    } else {
      assert (a + [n])[1..] == a[1..] + [n];
      FirstAppend(a[1..], n, p);
    }
  }

  // ── Retried promotion ──

  ghost predicate NoStaging(nodes: seq<Node>, tenant: string) {
    forall n :: n in nodes ==> !StagingIn(n, tenant)
  }

  lemma DeactivateTwice(nodes: seq<Node>, tenant: string)
    ensures Deactivate(Deactivate(nodes, tenant), tenant) == Deactivate(nodes, tenant)
  {
    var once := Deactivate(nodes, tenant);
    var rids := StagingRids(nodes, tenant);
    forall r ensures r in StagingRids(once, tenant) ==> r in rids {
      if r in StagingRids(once, tenant) {
        var n :| n in once && StagingIn(n, tenant) && n.rid == r;
        var i :| 0 <= i < |once| && once[i] == n;
        assert nodes[i] in nodes && StagingIn(nodes[i], tenant);
      }
    }
    forall n | n in once ensures !Superseded(StagingRids(once, tenant), tenant)(n) {
      var i :| 0 <= i < |once| && once[i] == n;
    }
    SetNothing(once, Superseded(StagingRids(once, tenant), tenant), SetInactive());
  }

  lemma PromotedLeavesNoStaging(nodes: seq<Node>, tenant: string, snapshot: string, k: nat)
    requires k >= 2
    ensures NoStaging(PromotePrefix(nodes, tenant, snapshot, k), tenant)
  {
    var d := PromoteNodes(Deactivate(nodes, tenant), tenant, snapshot);
    forall n | n in d ensures !StagingIn(n, tenant) {
      var i :| 0 <= i < |d| && d[i] == n;
    }
    KeepMembers(d, Not(Stamped(tenant, snapshot, false)));
  }

  lemma NothingToPromote(nodes: seq<Node>, tenant: string, snapshot: string)
    requires NoStaging(nodes, tenant)
    ensures Deactivate(nodes, tenant) == nodes && PromoteNodes(nodes, tenant, snapshot) == nodes
  {
    assert StagingRids(nodes, tenant) == {};
    SetNothing(nodes, Superseded({}, tenant), SetInactive());
    SetNothing(nodes, Staged(tenant), Stamp(snapshot));
  }

  function Max(a: nat, b: nat): nat {
    if a < b then b else a
  }

  /** Attempts absorb each other: only the furthest statement reached counts. */
  lemma PrefixesAbsorb(nodes: seq<Node>, tenant: string, snapshot: string, j: nat, k: nat)
    ensures PromotePrefix(PromotePrefix(nodes, tenant, snapshot, j), tenant, snapshot, k)
         == PromotePrefix(nodes, tenant, snapshot, Max(j, k))
  {
    var g := PromotePrefix(nodes, tenant, snapshot, j);
    if j == 1 {
      DeactivateTwice(nodes, tenant);
    } else if j >= 2 {
      PromotedLeavesNoStaging(nodes, tenant, snapshot, j);
      NothingToPromote(g, tenant, snapshot);
      if j >= 3 && k >= 3 {
        KeepMembers(PromoteNodes(Deactivate(nodes, tenant), tenant, snapshot), Not(Stamped(tenant, snapshot, false)));
        KeepEverything(g, Not(Stamped(tenant, snapshot, false)));
      }
    }
  }
}
