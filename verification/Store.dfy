/** The property graph and `_write_tx`: MERGE nodes by id, MATCH endpoints and MERGE edges. */
module Store {
  import opened Properties
  import opened Regrouping
  import opened Schemas
  import opened Batching

  /** An :Entity node; `created_version` and `updated_version` are ordinary properties of it. */
  datatype NodeState = NodeState(labels: set<NodeType>, props: Props)

  datatype Graph = Graph(nodes: map<Id, NodeState>, edges: map<EdgeKey, Props>)

  function Stamp(name: string, version: int): Props {
    map[name := One(Int(version))]
  }

  /** MERGE (n:Entity {id}) ON CREATE SET created_version SET n:label, n += props, updated_version. */
  function MergeNode(nodes: map<Id, NodeState>, w: NodeWrite, version: int): map<Id, NodeState> {
    var was := if w.key in nodes then nodes[w.key] else NodeState({}, Stamp("created_version", version));
    nodes[w.key := NodeState(was.labels + {w.cls}, was.props + w.props + Stamp("updated_version", version))]
  }

  /** MATCH both endpoints, MERGE the edge by type and prov_hash, SET r += props, updated_version. */
  function MergeEdge(edges: map<EdgeKey, Props>, present: set<Id>, w: EdgeWrite, version: int): map<EdgeKey, Props> {
    if Linkable(w.key, present) then
      var was := if w.key in edges then edges[w.key] else map[];
      edges[w.key := was + w.props + Stamp("updated_version", version)]
    else edges
  }

  predicate Linkable(k: EdgeKey, present: set<Id>) {
    k.src in present && k.dst in present
  }

  function MergeNodes(nodes: map<Id, NodeState>, ws: seq<NodeWrite>, version: int): map<Id, NodeState>
    decreases ws
  {
    if ws == [] then nodes else MergeNodes(MergeNode(nodes, ws[0], version), ws[1..], version)
  }

  function MergeEdges(edges: map<EdgeKey, Props>, present: set<Id>, ws: seq<EdgeWrite>, version: int): map<EdgeKey, Props>
    decreases ws
  {
    if ws == [] then edges else MergeEdges(MergeEdge(edges, present, ws[0], version), present, ws[1..], version)
  }

  /** One transaction: all node rows, then all edge rows. */
  function WriteTx(g: Graph, b: Batch, version: int): Graph {
    var nodes := MergeNodes(g.nodes, Flat(b.nodesByLabel), version);
    Graph(nodes, MergeEdges(g.edges, nodes.Keys, Flat(b.edgesByType), version))
  }

  lemma {:induction false} MergeNodesConcat(nodes: map<Id, NodeState>, a: seq<NodeWrite>, b: seq<NodeWrite>, version: int)
    ensures MergeNodes(nodes, a + b, version) == MergeNodes(MergeNodes(nodes, a, version), b, version)
    decreases a
  {
    if a == [] {
      assert a + b == b;
    } else {
      assert (a + b)[0] == a[0] && (a + b)[1..] == a[1..] + b;
      MergeNodesConcat(MergeNode(nodes, a[0], version), a[1..], b, version);
    }
  }

  lemma {:induction false} MergeEdgesConcat(edges: map<EdgeKey, Props>, present: set<Id>, a: seq<EdgeWrite>,
                                            b: seq<EdgeWrite>, version: int)
    ensures MergeEdges(edges, present, a + b, version)
         == MergeEdges(MergeEdges(edges, present, a, version), present, b, version)
    decreases a
  {
    if a == [] {
      assert a + b == b;
    } else {
      assert (a + b)[0] == a[0] && (a + b)[1..] == a[1..] + b;
      MergeEdgesConcat(MergeEdge(edges, present, a[0], version), present, a[1..], b, version);
    }
  }

  lemma {:induction false} FlatSnoc<C, K>(groups: seq<Group<C, K>>, i: nat)
    requires i < |groups|
    ensures Flat(groups[..i + 1]) == Flat(groups[..i]) + Tagged(groups[i].cls, groups[i].rows)
  {
    assert groups[..i + 1][..i] == groups[..i];
  }

  lemma {:induction false} TaggedSnoc<C, K>(c: C, rows: seq<Row<K>>, i: nat)
    requires i < |rows|
    ensures Tagged(c, rows[..i + 1]) == Tagged(c, rows[..i]) + [Write(c, rows[i].key, rows[i].props)]
  {
    assert rows[..i + 1][..i] == rows[..i];
  }

  class GraphStore {
    var graph: Graph
    /** Which batches the database refuses; a refused transaction is rolled back. */
    const rejects: (Graph, Batch) -> bool

    constructor (graph: Graph, rejects: (Graph, Batch) -> bool)
      ensures this.graph == graph && this.rejects == rejects
    {
      this.graph, this.rejects := graph, rejects;
    }

    /** The UNWIND of one label's rows. */
    method MergeNodeRows(nodeLabel: NodeType, rows: seq<Row<Id>>, version: int)
      modifies this
      ensures graph.edges == old(graph.edges)
      ensures graph.nodes == MergeNodes(old(graph.nodes), Tagged(nodeLabel, rows), version)
    {
      for i := 0 to |rows|
        invariant graph.edges == old(graph.edges)
        invariant graph.nodes == MergeNodes(old(graph.nodes), Tagged(nodeLabel, rows[..i]), version)
      {
        var w := Write(nodeLabel, rows[i].key, rows[i].props);
        TaggedSnoc(nodeLabel, rows, i);
        MergeNodesConcat(old(graph.nodes), Tagged(nodeLabel, rows[..i]), [w], version);
        graph := graph.(nodes := MergeNode(graph.nodes, w, version));
      }
      assert rows[..|rows|] == rows;
    }

    /** The UNWIND of one edge type's rows. */
    method MergeEdgeRows(edgeType: EdgeType, rows: seq<Row<EdgeKey>>, version: int)
      modifies this
      ensures graph.nodes == old(graph.nodes)
      ensures graph.edges == MergeEdges(old(graph.edges), old(graph.nodes.Keys), Tagged(edgeType, rows), version)
    {
      ghost var present := graph.nodes.Keys;
      for i := 0 to |rows|
        invariant graph.nodes == old(graph.nodes)
        invariant graph.edges == MergeEdges(old(graph.edges), present, Tagged(edgeType, rows[..i]), version)
      {
        var w := Write(edgeType, rows[i].key, rows[i].props);
        TaggedSnoc(edgeType, rows, i);
        MergeEdgesConcat(old(graph.edges), present, Tagged(edgeType, rows[..i]), [w], version);
        graph := graph.(edges := MergeEdge(graph.edges, graph.nodes.Keys, w, version));
      }
      assert rows[..|rows|] == rows;
    }

    /** `write_batch`: all of the batch in one transaction, or none of it. */
    method WriteBatch(batch: Batch, version: int) returns (ok: bool)
      modifies this
      ensures ok == !rejects(old(graph), batch)
      ensures graph == if ok then WriteTx(old(graph), batch, version) else old(graph)
    {
      if rejects(graph, batch) {
        return false;
      }
      for i := 0 to |batch.nodesByLabel|
        invariant graph.edges == old(graph.edges)
        invariant graph.nodes == MergeNodes(old(graph.nodes), Flat(batch.nodesByLabel[..i]), version)
      {
        var group := batch.nodesByLabel[i];
        FlatSnoc(batch.nodesByLabel, i);
        MergeNodesConcat(old(graph.nodes), Flat(batch.nodesByLabel[..i]), Tagged(group.cls, group.rows), version);
        MergeNodeRows(group.cls, group.rows, version);
      }
      assert batch.nodesByLabel[..|batch.nodesByLabel|] == batch.nodesByLabel;
      ghost var nodes := graph.nodes;
      for i := 0 to |batch.edgesByType|
        invariant graph.nodes == nodes
        invariant graph.edges == MergeEdges(old(graph.edges), nodes.Keys, Flat(batch.edgesByType[..i]), version)
      {
        var group := batch.edgesByType[i];
        FlatSnoc(batch.edgesByType, i);
        MergeEdgesConcat(old(graph.edges), nodes.Keys, Flat(batch.edgesByType[..i]), Tagged(group.cls, group.rows), version);
        MergeEdgeRows(group.cls, group.rows, version);
      }
      assert batch.edgesByType[..|batch.edgesByType|] == batch.edgesByType;
      return true;
    }
  }
}
