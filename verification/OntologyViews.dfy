/** What each tenant sees as active, and what chains of statements make of it. */
module OntologyViews {
  import opened Ordering
  import opened Sequences
  import opened OntologyGraph
  import opened OntologyService
  import opened OntologyRuns

  // ── Fates: a chain of statements seen from one node ──

  /** Each node replaced by its fate, or dropped. */
  function MapKeep(nodes: seq<Node>, fate: Node -> Option<Node>): seq<Node> {
    if nodes == [] then []
    else
      MapKeep(nodes[..|nodes| - 1], fate)
      + match fate(nodes[|nodes| - 1]) case Some(n) => [n] case None => []
  }

  function Only(p: Node -> bool): Node -> Option<Node> {
    (n: Node) => if p(n) then Some(n) else None
  }

  function ThenSet(p: Node -> bool, f: Node -> Node, fate: Node -> Option<Node>): Node -> Option<Node> {
    (n: Node) => fate(if p(n) then f(n) else n)
  }

  function ThenKeep(p: Node -> bool, fate: Node -> Option<Node>): Node -> Option<Node> {
    (n: Node) => if p(n) then fate(n) else None
  }

  lemma {:induction false} KeepIsFate(nodes: seq<Node>, p: Node -> bool)
    ensures Keep(nodes, p) == MapKeep(nodes, Only(p))
  {
    if nodes == [] {
    } else {
      KeepIsFate(nodes[..|nodes| - 1], p);
    }
  }

  lemma {:induction false} FateAfterSet(nodes: seq<Node>, p: Node -> bool, f: Node -> Node, fate: Node -> Option<Node>)
    ensures MapKeep(SetWhere(nodes, p, f), fate) == MapKeep(nodes, ThenSet(p, f, fate))
  {
    if nodes == [] {
    } else {
      FateAfterSet(nodes[..|nodes| - 1], p, f, fate);
      assert SetWhere(nodes, p, f)[..|nodes| - 1] == SetWhere(nodes[..|nodes| - 1], p, f);
    }
  }

  lemma MapKeepAppend(a: seq<Node>, n: Node, fate: Node -> Option<Node>)
    ensures MapKeep(a + [n], fate) == MapKeep(a, fate) + match fate(n) case Some(m) => [m] case None => []
  {
    assert (a + [n])[..|a|] == a;
  }

  lemma {:induction false} FateAfterKeep(nodes: seq<Node>, p: Node -> bool, fate: Node -> Option<Node>)
    ensures MapKeep(Keep(nodes, p), fate) == MapKeep(nodes, ThenKeep(p, fate))
  {
    if nodes == [] {
    } else {
      var front, last := nodes[..|nodes| - 1], nodes[|nodes| - 1];
      FateAfterKeep(front, p, fate);
      var kept := Keep(front, p);
      MapKeepAppend(kept, last, fate);
      assert Keep(nodes, p) == if p(last) then kept + [last] else kept;
    }
  }

  lemma {:induction false} SameFates(nodes: seq<Node>, f: Node -> Option<Node>, g: Node -> Option<Node>)
    requires forall n :: n in nodes ==> f(n) == g(n)
    ensures MapKeep(nodes, f) == MapKeep(nodes, g)
  {
    if nodes == [] {
    } else {
      assert nodes[|nodes| - 1] in nodes && forall n :: n in nodes[..|nodes| - 1] ==> n in nodes;
      SameFates(nodes[..|nodes| - 1], f, g);
    }
  }

  lemma {:induction false} MapKeepMembers(nodes: seq<Node>, fate: Node -> Option<Node>)
    ensures forall m :: m in MapKeep(nodes, fate) <==> exists n :: n in nodes && fate(n) == Some(m)
  {
    if nodes == [] {
    } else {
      var front, last := nodes[..|nodes| - 1], nodes[|nodes| - 1];
      MapKeepMembers(front, fate);
      assert nodes == front + [last];
      forall m ensures m in MapKeep(nodes, fate) <==> exists n :: n in nodes && fate(n) == Some(m) {
        if fate(last) == Some(m) { assert last in nodes; }
      }
    }
  }

  // ── One version per rid ──

  /** No entity is listed twice. */
  ghost predicate Unique(list: seq<Node>) {
    forall i, j :: 0 <= i < j < |list| ==> !SameEntity(list[i], list[j])
  }

  ghost predicate FatesApart(nodes: seq<Node>, fate: Node -> Option<Node>) {
    forall i, j :: 0 <= i < j < |nodes| && fate(nodes[i]).Some? && fate(nodes[j]).Some?
      ==> !SameEntity(fate(nodes[i]).value, fate(nodes[j]).value)
  }

  lemma {:induction false} UniqueFates(nodes: seq<Node>, fate: Node -> Option<Node>)
    requires FatesApart(nodes, fate)
    ensures Unique(MapKeep(nodes, fate))
  {
    if nodes == [] {
    } else {
      var front, last := nodes[..|nodes| - 1], nodes[|nodes| - 1];
      UniqueFates(front, fate);
      MapKeepMembers(front, fate);
      if fate(last).Some? {
        var list := MapKeep(front, fate);
        forall i | 0 <= i < |list| ensures !SameEntity(list[i], fate(last).value) {
          assert list[i] in list;
          var n :| n in front && fate(n) == Some(list[i]);
          var k :| 0 <= k < |front| && front[k] == n;
        }
      }
    }
  }

  lemma UniqueAppend(list: seq<Node>, n: Node)
    requires Unique(list + [n])
    ensures Unique(list) && forall m :: m in list ==> !SameEntity(m, n)
  {
    var all := list + [n];
    forall i, j | 0 <= i < j < |list| ensures !SameEntity(list[i], list[j]) {
      assert all[i] == list[i] && all[j] == list[j];
    }
    forall m | m in list ensures !SameEntity(m, n) {
      var i :| 0 <= i < |list| && list[i] == m;
      assert all[i] == m && all[|list|] == n;
    }
  }

  lemma {:induction false} UniqueMeansFatesApart(nodes: seq<Node>, fate: Node -> Option<Node>)
    requires Unique(MapKeep(nodes, fate))
    ensures FatesApart(nodes, fate)
  {
    if nodes == [] {
    } else {
      var front, last := nodes[..|nodes| - 1], nodes[|nodes| - 1];
      if fate(last).Some? {
        UniqueAppend(MapKeep(front, fate), fate(last).value);
        MapKeepMembers(front, fate);
        forall i | 0 <= i < |front| && fate(front[i]).Some?
          ensures !SameEntity(fate(front[i]).value, fate(last).value)
        {
          assert front[i] in front;
        }
      }
      assert fate(last).None? ==> MapKeep(nodes, fate) == MapKeep(front, fate);
      UniqueMeansFatesApart(front, fate);
      assert nodes == front + [last];
    }
  }

  // ── Views ──

  /** A version without label, staging flag, snapshot stamp and underscore fields. */
  function Core(n: Node): Node {
    Stored(n).(isStaging := false, snapshot := None)
  }

  /** What the tenant sees as active, by rid. */
  function ViewFrom(live: seq<Node>, tenant: string): map<string, Node> {
    if live == [] then map[]
    else
      var last := live[|live| - 1];
      var before := ViewFrom(live[..|live| - 1], tenant);
      if last.tenant == tenant then before[last.rid := Core(last)] else before
  }

  function View(w: World, tenant: string): map<string, Node> {
    ViewFrom(LiveNodes(w), tenant)
  }

  ghost predicate Listed(live: seq<Node>, tenant: string, rid: string) {
    exists n :: n in live && n.tenant == tenant && n.rid == rid
  }

  lemma {:induction false} ViewListed(live: seq<Node>, tenant: string, r: string)
    ensures r in ViewFrom(live, tenant) <==> Listed(live, tenant, r)
  {
    if live == [] {
    } else {
      var front, last := live[..|live| - 1], live[|live| - 1];
      assert live == front + [last];
      ViewListed(front, tenant, r);
      if Listed(front, tenant, r) {
        var n :| n in front && n.tenant == tenant && n.rid == r;
        assert n in live;
      }
      if last.tenant == tenant && last.rid == r { assert last in live; }
    }
  }

  lemma {:induction false} ViewShows(live: seq<Node>, tenant: string, n: Node)
    requires Unique(live) && n in live && n.tenant == tenant
    ensures n.rid in ViewFrom(live, tenant) && ViewFrom(live, tenant)[n.rid] == Core(n)
  {
    var front, last := live[..|live| - 1], live[|live| - 1];
    assert live == front + [last];
    UniqueAppend(front, last);
    if n in front {
      ViewShows(front, tenant, n);
      assert !SameEntity(n, last);
    }
  }

  /** The view lists exactly the live versions, and shows their content. */
  lemma {:induction false} ViewFacts(live: seq<Node>, tenant: string)
    requires Unique(live)
    ensures forall r :: r in ViewFrom(live, tenant) <==> Listed(live, tenant, r)
    ensures forall n :: n in live && n.tenant == tenant ==>
              n.rid in ViewFrom(live, tenant) && ViewFrom(live, tenant)[n.rid] == Core(n)
  {
    forall r ensures r in ViewFrom(live, tenant) <==> Listed(live, tenant, r) { ViewListed(live, tenant, r); }
    forall n | n in live && n.tenant == tenant
      ensures n.rid in ViewFrom(live, tenant) && ViewFrom(live, tenant)[n.rid] == Core(n)
    {
      ViewShows(live, tenant, n);
    }
  }

  /** Looking for an active version of a known entity is looking into the view. */
  lemma ReadingIsViewing(nodes: seq<Node>, tenant: string, n: Node)
    requires Unique(Keep(nodes, LiveNode())) && OneKind(nodes) && n in nodes && n.tenant == tenant
    ensures First(nodes, ActiveVersion(n.kind, n.rid, tenant)).Some?
       <==> n.rid in ViewFrom(Keep(nodes, LiveNode()), tenant)
  {
    var live := Keep(nodes, LiveNode());
    ViewFacts(live, tenant);
    KeepMembers(nodes, LiveNode());
    var found := First(nodes, ActiveVersion(n.kind, n.rid, tenant));
    if Listed(live, tenant, n.rid) {
      var m :| m in live && m.tenant == tenant && m.rid == n.rid;
      assert SameEntity(m, n);
      assert ActiveVersion(n.kind, n.rid, tenant)(m);
    }
    assert found.Some? ==> found.value in live;
  }

  /** The entity's versions carry this label. */
  ghost predicate Labelled(nodes: seq<Node>, tenant: string, rid: string, kind: string) {
    exists n :: n in nodes && n.tenant == tenant && n.rid == rid && n.kind == kind
  }

  /** An active read finds an entity exactly when the view shows it and it has that label, with the same content. */
  lemma ViewIsWhatReadsReturn(w: World, kind: string, rid: string, tenant: string)
    requires Unique(LiveNodes(w)) && OneKind(w.nodes)
    ensures var found := First(w.nodes, ActiveVersion(kind, rid, tenant));
            && (found.Some? <==> rid in View(w, tenant) && Labelled(w.nodes, tenant, rid, kind))
            && (found.Some? ==> View(w, tenant)[rid] == Core(found.value))
    ensures rid in View(w, tenant) ==> exists k :: Labelled(w.nodes, tenant, rid, k)
  {
    var found := First(w.nodes, ActiveVersion(kind, rid, tenant));
    ViewFacts(LiveNodes(w), tenant);
    KeepMembers(w.nodes, LiveNode());
    if Labelled(w.nodes, tenant, rid, kind) {
      var n :| n in w.nodes && n.tenant == tenant && n.rid == rid && n.kind == kind;
      ReadingIsViewing(w.nodes, tenant, n);
    }
    if rid in View(w, tenant) {
      var n :| n in LiveNodes(w) && n.tenant == tenant && n.rid == rid;
      assert Labelled(w.nodes, tenant, rid, n.kind);
    }
  }
}
