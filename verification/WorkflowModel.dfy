/** Workflow definitions: nodes, edges, and the values that flow between nodes. */
module WorkflowModel {
  import opened Ordering
  import opened Digraph
  import opened Values

  datatype NodeKind = Condition | Wait | Capability

  datatype Node = Node(id: Id, kind: NodeKind, mappings: map<string, Value>)

  /** An edge; an absent or empty condition is unconditional. */
  datatype Edge = Edge(src: Id, dst: Id, condition: string)

  function NodeIds(nodes: seq<Node>): set<Id> {
    set n | n in nodes :: n.id
  }

  /** `{n.node_id: n for n in nodes}`: of nodes with the same id, the last one counts. */
  function NodeMap(nodes: seq<Node>): (m: map<Id, Node>)
    ensures m.Keys == NodeIds(nodes)
    ensures forall id :: id in m ==> m[id].id == id && m[id] in nodes
  {
    if nodes == [] then map[]
    else
      var last := nodes[|nodes| - 1];
      assert nodes == nodes[..|nodes| - 1] + [last];
      NodeMap(nodes[..|nodes| - 1])[last.id := last]
  }

  function ArcsOf(edges: seq<Edge>): Arcs {
    set e | e in edges :: (e.src, e.dst)
  }

  function Elements<T>(s: seq<T>): set<T> {
    set x | x in s
  }

  /** Walking a list of distinct values. */
  lemma PrefixElements<T>(s: seq<T>, i: nat)
    requires Distinct(s) && i < |s|
    ensures s[i] in Elements(s) && s[i] !in Elements(s[..i]) && Elements(s[..i]) <= Elements(s)
    ensures Elements(s[..i + 1]) == Elements(s[..i]) + {s[i]}
    ensures Elements(s[..|s|]) == Elements(s)
  {
    assert s[..i + 1] == s[..i] + [s[i]] && s[..|s|] == s;
  }

  lemma ElementsAppend<T>(s: seq<T>, x: T)
    ensures Elements(s + [x]) == Elements(s) + {x}
  {
  }
}
