/** `group_batch`: a list of resolved subgraphs regrouped into row sets ready for UNWIND. */
module Batching {
  import opened Sequences
  import opened Wrappers
  import opened Properties
  import opened Regrouping
  import opened Schemas

  /** The identity `prov_hash` hashes; confidence and source are not part of it. */
  datatype ProvHash = ProvHash(
    docId: string, page: Option<int>, span: Option<(int, int)>,
    bbox: Option<(real, real, real, real)>, extractorVersion: string)

  function HashOf(p: Provenance): ProvHash {
    ProvHash(p.docId, p.page, p.span, p.bbox, p.extractorVersion)
  }

  datatype EdgeKey = EdgeKey(src: Id, edgeType: EdgeType, provHash: ProvHash, dst: Id)

  type NodeWrite = Write<NodeType, Id>
  type EdgeWrite = Write<EdgeType, EdgeKey>

  // ---- the writes a subgraph asks for ----------------------------------------------------

  predicate Resolved(n: CandidateNode) {
    n.resolvedId.Some? && n.resolvedId.value != ""
  }

  function IdOf(n: CandidateNode): Id {
    if n.resolvedId.Some? then n.resolvedId.value else ""
  }

  function NodeProps(n: CandidateNode): RawProps {
    map["surface_form" := Scalar(Str(n.surfaceForm))] + n.props
  }

  function EdgeProps(e: CandidateEdge): RawProps {
    e.props + map[
      "doc_id" := Scalar(Str(e.provenance.docId)),
      "page" := if e.provenance.page.Some? then Scalar(Int(e.provenance.page.value)) else Null,
      "extractor_version" := Scalar(Str(e.provenance.extractorVersion)),
      "confidence" := Scalar(Num(e.provenance.confidence)),
      "source" := Scalar(Str(SourceValue(e.provenance.source)))]
  }

  function NodeWriteOf(n: CandidateNode): NodeWrite {
    Write(n.nodeType, IdOf(n), Clean(NodeProps(n)))
  }

  /** Surface form to canonical id, on top of `ids`; a later node with the same surface form wins. */
  function Extended(ids: map<string, Id>, nodes: seq<CandidateNode>): map<string, Id>
    decreases nodes
  {
    if nodes == [] then ids else Extended(ids[nodes[0].surfaceForm := IdOf(nodes[0])], nodes[1..])
  }

  function IdMap(c: Subgraph): map<string, Id> {
    Extended(map[], c.nodes)
  }

  function Endpoint(ids: map<string, Id>, ref: string): Id {
    if ref in ids then ids[ref] else ref
  }

  function EdgeWriteOf(e: CandidateEdge, ids: map<string, Id>): EdgeWrite {
    Write(e.edgeType,
          EdgeKey(Endpoint(ids, e.src), e.edgeType, HashOf(e.provenance), Endpoint(ids, e.dst)),
          Clean(EdgeProps(e)))
  }

  function NodeWritesOf(nodes: seq<CandidateNode>): seq<NodeWrite> {
    if nodes == [] then [] else [NodeWriteOf(nodes[0])] + NodeWritesOf(nodes[1..])
  }

  function EdgeWritesOf(edges: seq<CandidateEdge>, ids: map<string, Id>): seq<EdgeWrite> {
    if edges == [] then [] else [EdgeWriteOf(edges[0], ids)] + EdgeWritesOf(edges[1..], ids)
  }

  function NodeWrites(c: Subgraph): seq<NodeWrite> {
    NodeWritesOf(c.nodes)
  }

  function EdgeWrites(c: Subgraph): seq<EdgeWrite> {
    EdgeWritesOf(c.edges, IdMap(c))
  }

  function AllNodeWrites(cs: seq<Subgraph>): seq<NodeWrite> {
    if cs == [] then [] else NodeWrites(cs[0]) + AllNodeWrites(cs[1..])
  }

  function AllEdgeWrites(cs: seq<Subgraph>): seq<EdgeWrite> {
    if cs == [] then [] else EdgeWrites(cs[0]) + AllEdgeWrites(cs[1..])
  }

  function DocIds(cs: seq<Subgraph>): set<string> {
    if cs == [] then {} else {cs[0].docId} + DocIds(cs[1..])
  }

  // ---- the batch -------------------------------------------------------------------------

  datatype Batch = Batch(
    nodesByLabel: seq<Group<NodeType, Id>>,
    edgesByType: seq<Group<EdgeType, EdgeKey>>,
    nodeIds: set<Id>,
    edgeTypes: set<EdgeType>,
    docIds: set<string>)

  function GroupedBatch(cs: seq<Subgraph>): Batch {
    var nodes, edges := AllNodeWrites(cs), AllEdgeWrites(cs);
    Batch(Grouped(nodes, true), Grouped(edges, false),
          Keys(nodes), Classes(edges), DocIds(cs))
  }

  datatype UnresolvedNode = UnresolvedNode(docId: string, surfaceForm: string)

  predicate AllResolved(nodes: seq<CandidateNode>) {
    nodes == [] || (Resolved(nodes[0]) && AllResolved(nodes[1..]))
  }

  predicate EveryResolved(cs: seq<Subgraph>) {
    cs == [] || (AllResolved(cs[0].nodes) && EveryResolved(cs[1..]))
  }

  /** The first unresolved node of a subgraph, as the ValueError names it. */
  function ErrorIn(docId: string, nodes: seq<CandidateNode>): UnresolvedNode
    requires !AllResolved(nodes)
  {
    if !Resolved(nodes[0]) then UnresolvedNode(docId, nodes[0].surfaceForm) else ErrorIn(docId, nodes[1..])
  }

  /** The error of a list of subgraphs is that of the first one with an unresolved node. */
  function FirstError(cs: seq<Subgraph>): UnresolvedNode
    requires !EveryResolved(cs)
  {
    if !AllResolved(cs[0].nodes) then ErrorIn(cs[0].docId, cs[0].nodes) else FirstError(cs[1..])
  }

  lemma {:induction false} GroupedSnoc<C, K>(ws: seq<Write<C, K>>, w: Write<C, K>, dedup: bool)
    ensures Grouped(ws + [w], dedup) == AddWrite(Grouped(ws, dedup), w, dedup)
  {
    assert (ws + [w])[..|ws|] == ws;
  }

  class WriteBatch {
    var nodesByLabel: seq<Group<NodeType, Id>>
    var edgesByType: seq<Group<EdgeType, EdgeKey>>
    var nodeIds: set<Id>
    var edgeTypes: set<EdgeType>
    var docIds: set<string>
    /** The writes grouped so far, in the order they came. */
    ghost var nodeLog: seq<NodeWrite>
    ghost var edgeLog: seq<EdgeWrite>

    ghost predicate Valid()
      reads this
    {
      && nodesByLabel == Grouped(nodeLog, true)
      && edgesByType == Grouped(edgeLog, false)
      && nodeIds == Keys(nodeLog)
      && edgeTypes == Classes(edgeLog)
    }

    function View(): Batch
      reads this
    {
      Batch(nodesByLabel, edgesByType, nodeIds, edgeTypes, docIds)
    }

    constructor ()
      ensures Valid() && nodeLog == [] && edgeLog == [] && docIds == {}
    {
      nodesByLabel, edgesByType, nodeIds, edgeTypes, docIds := [], [], {}, {}, {};
      nodeLog, edgeLog := [], [];
    }

    /** The row joins its label's list, or updates the row already there for the same id. */
    method AddNode(node: CandidateNode)
      requires Valid()
      modifies this
      ensures Valid() && nodeLog == old(nodeLog) + [NodeWriteOf(node)]
      ensures edgeLog == old(edgeLog) && docIds == old(docIds)
    {
      var props := CleanProps(NodeProps(node));
      var row := Row(IdOf(node), props);
      var rows := RowsOf(nodesByLabel, node.nodeType);
      var at := RowAt(rows, row.key);
      if at < |rows| {
        rows := rows[at := Row(row.key, rows[at].props + row.props)];
      } else {
        rows := rows + [row];
      }
      GroupedSnoc(nodeLog, NodeWriteOf(node), true);
      assert (nodeLog + [NodeWriteOf(node)])[..|nodeLog|] == nodeLog;
      nodesByLabel := SetRows(nodesByLabel, node.nodeType, rows);
      nodeIds := nodeIds + {row.key};
      nodeLog := nodeLog + [NodeWriteOf(node)];
    }

    method AddEdge(edge: CandidateEdge, ids: map<string, Id>)
      requires Valid()
      modifies this
      ensures Valid() && edgeLog == old(edgeLog) + [EdgeWriteOf(edge, ids)]
      ensures nodeLog == old(nodeLog) && docIds == old(docIds)
    {
      var props := CleanProps(EdgeProps(edge));
      var key := EdgeKey(Endpoint(ids, edge.src), edge.edgeType, HashOf(edge.provenance), Endpoint(ids, edge.dst));
      GroupedSnoc(edgeLog, EdgeWriteOf(edge, ids), false);
      assert (edgeLog + [EdgeWriteOf(edge, ids)])[..|edgeLog|] == edgeLog;
      edgesByType := SetRows(edgesByType, edge.edgeType, RowsOf(edgesByType, edge.edgeType) + [Row(key, props)]);
      edgeTypes := edgeTypes + {edge.edgeType};
      edgeLog := edgeLog + [EdgeWriteOf(edge, ids)];
    }

    /** The nodes of one subgraph join the batch, until an unresolved one stops it. */
    method AddNodes(c: Subgraph) returns (r: Result<map<string, Id>, UnresolvedNode>)
      requires Valid()
      modifies this
      ensures Valid() && edgeLog == old(edgeLog) && docIds == old(docIds)
      ensures r == if AllResolved(c.nodes) then Success(IdMap(c)) else Failure(ErrorIn(c.docId, c.nodes))
      ensures r.Success? ==> nodeLog == old(nodeLog) + NodeWrites(c)
    {
      var idMap: map<string, Id> := map[];
      var rest := c.nodes;
      while rest != []
        invariant Valid() && edgeLog == old(edgeLog) && docIds == old(docIds)
        invariant Extended(idMap, rest) == IdMap(c)
        invariant AllResolved(rest) == AllResolved(c.nodes)
        invariant !AllResolved(rest) ==> ErrorIn(c.docId, rest) == ErrorIn(c.docId, c.nodes)
        invariant nodeLog + NodeWritesOf(rest) == old(nodeLog) + NodeWrites(c)
        decreases |rest|
      {
        var node := rest[0];
        if !Resolved(node) {
          return Failure(UnresolvedNode(c.docId, node.surfaceForm));
        }
        idMap := idMap[node.surfaceForm := IdOf(node)];
        ConcatAssociates(nodeLog, [NodeWriteOf(node)], NodeWritesOf(rest[1..]));
        AddNode(node);
        rest := rest[1..];
      }
      return Success(idMap);
    }

    method AddEdges(c: Subgraph, ids: map<string, Id>)
      requires Valid() && ids == IdMap(c)
      modifies this
      ensures Valid() && nodeLog == old(nodeLog) && docIds == old(docIds)
      ensures edgeLog == old(edgeLog) + EdgeWrites(c)
    {
      var rest := c.edges;
      while rest != []
        invariant Valid() && nodeLog == old(nodeLog) && docIds == old(docIds)
        invariant edgeLog + EdgeWritesOf(rest, ids) == old(edgeLog) + EdgeWrites(c)
        decreases |rest|
      {
        ConcatAssociates(edgeLog, [EdgeWriteOf(rest[0], ids)], EdgeWritesOf(rest[1..], ids));
        AddEdge(rest[0], ids);
        rest := rest[1..];
      }
    }

    method AddSubgraph(c: Subgraph) returns (unresolved: Option<UnresolvedNode>)
      requires Valid()
      modifies this
      ensures Valid()
      ensures unresolved == if AllResolved(c.nodes) then None else Some(ErrorIn(c.docId, c.nodes))
      ensures unresolved.None? ==>
                && nodeLog == old(nodeLog) + NodeWrites(c)
                && edgeLog == old(edgeLog) + EdgeWrites(c)
                && docIds == old(docIds) + {c.docId}
    {
      var idMap := AddNodes(c);
      if idMap.Failure? {
        return Some(idMap.error);
      }
      AddEdges(c, idMap.value);
      docIds := docIds + {c.docId};
      return None;
    }
  }

  /** Every subgraph resolved: the batch is the regrouped form of all their writes. Otherwise
      the first unresolved node of the first such subgraph is the error. */
  method GroupBatch(subgraphs: seq<Subgraph>) returns (r: Result<WriteBatch, UnresolvedNode>)
    ensures r.Success? <==> EveryResolved(subgraphs)
    ensures r.Success? ==> fresh(r.value) && r.value.View() == GroupedBatch(subgraphs)
    ensures r.Failure? ==> r.error == FirstError(subgraphs)
  {
    var batch := new WriteBatch();
    var rest := subgraphs;
    while rest != []
      invariant fresh(batch) && batch.Valid()
      invariant batch.nodeLog + AllNodeWrites(rest) == AllNodeWrites(subgraphs)
      invariant batch.edgeLog + AllEdgeWrites(rest) == AllEdgeWrites(subgraphs)
      invariant batch.docIds + DocIds(rest) == DocIds(subgraphs)
      invariant EveryResolved(rest) == EveryResolved(subgraphs)
      invariant !EveryResolved(rest) ==> FirstError(rest) == FirstError(subgraphs)
      decreases |rest|
    {
      ghost var nodes, edges := batch.nodeLog, batch.edgeLog;
      var unresolved := batch.AddSubgraph(rest[0]);
      if unresolved.Some? {
        return Failure(unresolved.value);
      }
      ConcatAssociates(nodes, NodeWrites(rest[0]), AllNodeWrites(rest[1..]));
      ConcatAssociates(edges, EdgeWrites(rest[0]), AllEdgeWrites(rest[1..]));
      rest := rest[1..];
    }
    assert batch.nodeLog == AllNodeWrites(subgraphs) && batch.edgeLog == AllEdgeWrites(subgraphs);
    return Success(batch);
  }
}
