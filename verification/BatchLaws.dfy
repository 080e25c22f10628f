/** What a subgraph's writes are, said in terms of its nodes and edges, and what one transaction
    stores of them. */
module BatchLaws {
  import opened Wrappers
  import opened Properties
  import opened Regrouping
  import opened Schemas
  import opened Batching
  import opened Store
  import opened GraphWrites

  // ---- the ends of an edge ------------------------------------------------------------------------

  /** Node `k` is the last of `nodes` with the surface form `ref`. */
  predicate IsLastNamed(nodes: seq<CandidateNode>, ref: string, k: int) {
    0 <= k < |nodes| && nodes[k].surfaceForm == ref && forall j :: k < j < |nodes| ==> nodes[j].surfaceForm != ref
  }

  predicate Unnamed(nodes: seq<CandidateNode>, ref: string) {
    forall j :: 0 <= j < |nodes| ==> nodes[j].surfaceForm != ref
  }

  /** `id` is the resolved id of the last node with that surface form, or, when there is none, the
      reference itself. */
  ghost predicate StandsFor(nodes: seq<CandidateNode>, ref: string, id: Id) {
    || (exists k :: IsLastNamed(nodes, ref, k) && nodes[k].resolvedId == Some(id))
    || (Unnamed(nodes, ref) && id == ref)
  }

  lemma {:induction false} ExtendedAt(ids: map<string, Id>, nodes: seq<CandidateNode>, ref: string)
    requires AllResolved(nodes)
    ensures Unnamed(nodes, ref) ==> (ref in Extended(ids, nodes) <==> ref in ids)
    ensures Unnamed(nodes, ref) && ref in ids ==> Extended(ids, nodes)[ref] == ids[ref]
    ensures forall k :: IsLastNamed(nodes, ref, k) ==>
              ref in Extended(ids, nodes) && nodes[k].resolvedId == Some(Extended(ids, nodes)[ref])
    decreases nodes
  {
    if nodes != [] {
      var next, rest := ids[nodes[0].surfaceForm := IdOf(nodes[0])], nodes[1..];
      ExtendedAt(next, rest, ref);
      forall k | IsLastNamed(nodes, ref, k)
        ensures ref in Extended(ids, nodes) && nodes[k].resolvedId == Some(Extended(ids, nodes)[ref])
      {
        if k > 0 {
          assert IsLastNamed(rest, ref, k - 1);
        } else {
          assert forall j :: 0 <= j < |rest| ==> rest[j] == nodes[j + 1];
          assert Unnamed(rest, ref);
        }
      }
      if Unnamed(nodes, ref) {
        assert forall j :: 0 <= j < |rest| ==> rest[j] == nodes[j + 1];
      }
    }
  }

  lemma {:induction false} NamedOrNot(nodes: seq<CandidateNode>, ref: string) returns (k: int)
    ensures IsLastNamed(nodes, ref, k) || Unnamed(nodes, ref)
    decreases nodes
  {
    k := -1;
    if nodes != [] {
      var rest := nodes[1..];
      k := NamedOrNot(rest, ref);
      assert forall j :: 0 <= j < |rest| ==> nodes[j + 1] == rest[j];
      if IsLastNamed(rest, ref, k) {
        k := k + 1;
      } else if nodes[0].surfaceForm == ref {
        k := 0;
      }
    }
  }

  lemma {:induction false} EndpointMeans(c: Subgraph, ref: string)
    requires AllResolved(c.nodes)
    ensures StandsFor(c.nodes, ref, Endpoint(IdMap(c), ref))
  {
    ExtendedAt(map[], c.nodes, ref);
    var k := NamedOrNot(c.nodes, ref);
    if IsLastNamed(c.nodes, ref, k) {
      assert c.nodes[k].resolvedId == Some(Endpoint(IdMap(c), ref));
    }
  }

  lemma {:induction false} OneStandsFor(nodes: seq<CandidateNode>, ref: string, a: Id, b: Id)
    requires StandsFor(nodes, ref, a) && StandsFor(nodes, ref, b)
    ensures a == b
  {
  }

  // ---- the write of an edge -----------------------------------------------------------------------

  /** The identity of an extraction; confidence and source are not part of it. */
  predicate SameExtraction(p: Provenance, q: Provenance) {
    p.docId == q.docId && p.page == q.page && p.span == q.span && p.bbox == q.bbox && p.extractorVersion == q.extractorVersion
  }

  lemma {:induction false} HashTellsExtractions(p: Provenance, q: Provenance)
    ensures HashOf(p) == HashOf(q) <==> SameExtraction(p, q)
  {
  }

  /** The value a property map has for a name, or None. */
  function At(props: Props, name: string): Option<StoredValue> {
    if name in props then Some(props[name]) else None
  }

  /** What `clean_props` makes of one entry of a raw dict. */
  function Cleaned(raw: RawProps, name: string): Option<StoredValue> {
    if name in raw && !raw[name].Null? then Some(CleanValue(raw[name])) else None
  }

  const STAMPED: set<string> := {"doc_id", "page", "extractor_version", "confidence", "source"}

  /** The properties of an edge: its provenance, whatever its own properties say under those names,
      and its own properties cleaned under all others. */
  predicate CarriesProvenance(props: Props, e: CandidateEdge) {
    && At(props, "doc_id") == Some(One(Str(e.provenance.docId)))
    && At(props, "page") == (if e.provenance.page.Some? then Some(One(Int(e.provenance.page.value))) else None)
    && At(props, "extractor_version") == Some(One(Str(e.provenance.extractorVersion)))
    && At(props, "confidence") == Some(One(Num(e.provenance.confidence)))
    && At(props, "source") == Some(One(Str(SourceValue(e.provenance.source))))
  }

  ghost predicate OwnProps(props: Props, raw: RawProps, reserved: set<string>) {
    forall name :: name !in reserved ==> At(props, name) == Cleaned(raw, name)
  }

  lemma {:induction false} EdgePropsAre(e: CandidateEdge)
    ensures CarriesProvenance(Clean(EdgeProps(e)), e) && OwnProps(Clean(EdgeProps(e)), e.props, STAMPED)
  {
    var raw := EdgeProps(e);
    assert raw["doc_id"] == Scalar(Str(e.provenance.docId));
    assert raw["extractor_version"] == Scalar(Str(e.provenance.extractorVersion));
    assert raw["confidence"] == Scalar(Num(e.provenance.confidence));
    assert raw["source"] == Scalar(Str(SourceValue(e.provenance.source)));
    assert raw["page"] == if e.provenance.page.Some? then Scalar(Int(e.provenance.page.value)) else Null;
  }

  /** What is written of edge `e` of a subgraph with these nodes. */
  ghost predicate WritesEdge(w: EdgeWrite, e: CandidateEdge, nodes: seq<CandidateNode>) {
    && w.cls == e.edgeType && w.key.edgeType == e.edgeType
    && StandsFor(nodes, e.src, w.key.src) && StandsFor(nodes, e.dst, w.key.dst)
    && w.key.provHash == HashOf(e.provenance)
    && CarriesProvenance(w.props, e) && OwnProps(w.props, e.props, STAMPED)
  }

  lemma {:induction false} EdgeWriteAt(edges: seq<CandidateEdge>, ids: map<string, Id>, i: nat)
    requires i < |edges|
    ensures |EdgeWritesOf(edges, ids)| == |edges| && EdgeWritesOf(edges, ids)[i] == EdgeWriteOf(edges[i], ids)
    decreases edges
  {
    if |edges| > 1 {
      EdgeWriteAt(edges[1..], ids, if i == 0 then 0 else i - 1);
    } else {
      assert edges[1..] == [];
    }
  }

  /** Each edge of a resolved subgraph is written once, in order, between the nodes its ends name. */
  lemma {:induction false} EdgesAreWritten(c: Subgraph)
    requires AllResolved(c.nodes)
    ensures |EdgeWrites(c)| == |c.edges|
    ensures forall i :: 0 <= i < |c.edges| ==> WritesEdge(EdgeWrites(c)[i], c.edges[i], c.nodes)
  {
    if c.edges != [] {
      EdgeWriteAt(c.edges, IdMap(c), 0);
    }
    forall i | 0 <= i < |c.edges|
      ensures WritesEdge(EdgeWrites(c)[i], c.edges[i], c.nodes)
    {
      var e := c.edges[i];
      EdgeWriteAt(c.edges, IdMap(c), i);
      EndpointMeans(c, e.src);
      EndpointMeans(c, e.dst);
      EdgePropsAre(e);
    }
  }

  lemma {:induction false} EdgeClasses(c: Subgraph)
    requires AllResolved(c.nodes)
    ensures |EdgeWrites(c)| == |c.edges| && forall i :: 0 <= i < |c.edges| ==> EdgeWrites(c)[i].cls == c.edges[i].edgeType
  {
    EdgesAreWritten(c);
    forall i | 0 <= i < |c.edges|
      ensures EdgeWrites(c)[i].cls == c.edges[i].edgeType
    {
      assert WritesEdge(EdgeWrites(c)[i], c.edges[i], c.nodes);
    }
  }

  // ---- the write of a node ------------------------------------------------------------------------

  /** What is written of a node: its own properties cleaned, and its surface form unless they say
      otherwise under that name. */
  ghost predicate WritesNode(w: NodeWrite, n: CandidateNode) {
    && w.cls == n.nodeType && n.resolvedId == Some(w.key)
    && OwnProps(w.props, n.props, {"surface_form"})
    && At(w.props, "surface_form") ==
         (if "surface_form" in n.props then Cleaned(n.props, "surface_form") else Some(One(Str(n.surfaceForm))))
  }

  lemma {:induction false} NodeWriteIs(n: CandidateNode)
    requires Resolved(n)
    ensures WritesNode(NodeWriteOf(n), n)
  {
    var raw := NodeProps(n);
    assert forall name :: name in raw <==> name == "surface_form" || name in n.props;
    assert forall name :: name in n.props ==> raw[name] == n.props[name];
    assert "surface_form" !in n.props ==> raw["surface_form"] == Scalar(Str(n.surfaceForm));
  }

  /** Each node of a resolved subgraph is written once, in order. */
  lemma {:induction false} NodesAreWritten(nodes: seq<CandidateNode>)
    requires AllResolved(nodes)
    ensures |NodeWritesOf(nodes)| == |nodes|
    ensures forall i :: 0 <= i < |nodes| ==> WritesNode(NodeWritesOf(nodes)[i], nodes[i])
    decreases nodes
  {
    if nodes != [] {
      NodesAreWritten(nodes[1..]);
      NodeWriteIs(nodes[0]);
    }
  }

  // ---- what one transaction stores ------------------------------------------------------------------

  lemma {:induction false} KeyAmong<C, K>(ws: seq<Write<C, K>>, k: K)
    ensures k in Keys(ws) <==> exists i :: 0 <= i < |ws| && ws[i].key == k
  {
    KeysAreTouched(ws, k);
    TouchedOn(ws, k);
  }

  lemma {:induction false} AllWritesHold(cs: seq<Subgraph>, m: nat)
    requires m < |cs|
    ensures forall w :: w in NodeWrites(cs[m]) ==> w in AllNodeWrites(cs)
    ensures forall w :: w in EdgeWrites(cs[m]) ==> w in AllEdgeWrites(cs)
    decreases cs
  {
    if m > 0 {
      AllWritesHold(cs[1..], m - 1);
    }
  }

  /** Every node of a written subgraph is stored under its resolved id. */
  lemma {:induction false} NodeIsStored(g: Graph, cs: seq<Subgraph>, version: int, m: nat, i: nat)
    requires EveryResolved(cs) && m < |cs| && i < |cs[m].nodes|
    ensures cs[m].nodes[i].resolvedId.Some? && cs[m].nodes[i].resolvedId.value in WriteAll(g, cs, version).nodes
  {
    ResolvedAt(cs, m);
    NodesAreWritten(cs[m].nodes);
    AllWritesHold(cs, m);
    var w := NodeWrites(cs[m])[i];
    assert w in NodeWrites(cs[m]);
    var j :| 0 <= j < |AllNodeWrites(cs)| && AllNodeWrites(cs)[j] == w;
    KeyAmong(AllNodeWrites(cs), w.key);
    KeysOfBatch(g, cs, version);
  }

  lemma {:induction false} ResolvedAt(cs: seq<Subgraph>, m: nat)
    requires EveryResolved(cs) && m < |cs|
    ensures AllResolved(cs[m].nodes)
    decreases cs
  {
    if m > 0 {
      ResolvedAt(cs[1..], m - 1);
    }
  }

  /** An edge between two nodes of one of the subgraphs is stored, under their ids, by one transaction
      on any graph. */
  lemma {:induction false} LinkIsStored(
    g: Graph, cs: seq<Subgraph>, version: int, m: nat, i: nat, a: nat, b: nat)
    requires EveryResolved(cs) && m < |cs| && i < |cs[m].edges|
    requires IsLastNamed(cs[m].nodes, cs[m].edges[i].src, a) && IsLastNamed(cs[m].nodes, cs[m].edges[i].dst, b)
    ensures var c, e := cs[m], cs[m].edges[i];
            && c.nodes[a].resolvedId.Some? && c.nodes[b].resolvedId.Some?
            && EdgeKey(c.nodes[a].resolvedId.value, e.edgeType, HashOf(e.provenance), c.nodes[b].resolvedId.value)
               in WriteAll(g, cs, version).edges
  {
    var c, e := cs[m], cs[m].edges[i];
    ResolvedAt(cs, m);
    NodeIsStored(g, cs, version, m, a);
    NodeIsStored(g, cs, version, m, b);
    EdgesAreWritten(c);
    var w := EdgeWrites(c)[i];
    OneStandsFor(c.nodes, e.src, w.key.src, c.nodes[a].resolvedId.value);
    OneStandsFor(c.nodes, e.dst, w.key.dst, c.nodes[b].resolvedId.value);
    AllWritesHold(cs, m);
    assert w in EdgeWrites(c);
    var j :| 0 <= j < |AllEdgeWrites(cs)| && AllEdgeWrites(cs)[j] == w;
    TouchedOn(AllEdgeWrites(cs), w.key);
    KeysOfBatch(g, cs, version);
    EdgesOfBatch(g, cs, version, w.key);
    assert SeenEdge(WriteAll(g, cs, version).edges, w.key).Edge?;
  }

  // ---- version stamps -------------------------------------------------------------------------------

  predicate StampedWith(props: Props, name: string, version: int) {
    name in props && props[name] == One(Int(version))
  }

  /** One node row stamps its node and no other; a new node gets its creation stamp too, which its
      own properties can override. */
  lemma {:induction false} NodeRowStamps(nodes: map<Id, NodeState>, w: NodeWrite, version: int, id: Id)
    ensures var after := MergeNode(nodes, w, version);
            && (id == w.key ==> id in after && StampedWith(after[id].props, "updated_version", version))
            && (id == w.key && "created_version" !in w.props ==>
                  if id in nodes then At(after[id].props, "created_version") == At(nodes[id].props, "created_version")
                  else StampedWith(after[id].props, "created_version", version))
            && (id != w.key ==> (id in after <==> id in nodes) && (id in nodes ==> after[id] == nodes[id]))
  {
  }

  /** A transaction stamps every node it writes with its version and leaves the others alone. */
  lemma {:induction false} NodeRowsStamp(nodes: map<Id, NodeState>, ws: seq<NodeWrite>, version: int, id: Id)
    ensures var after := MergeNodes(nodes, ws, version);
            && ((exists i :: 0 <= i < |ws| && ws[i].key == id) ==> id in after && StampedWith(after[id].props, "updated_version", version))
            && (!(exists i :: 0 <= i < |ws| && ws[i].key == id) ==>
                  (id in after <==> id in nodes) && (id in nodes ==> after[id] == nodes[id]))
    decreases ws
  {
    if ws != [] {
      var rest := ws[1..];
      NodeRowStamps(nodes, ws[0], version, id);
      NodeRowsStamp(MergeNode(nodes, ws[0], version), rest, version, id);
      assert forall i :: 0 <= i < |rest| ==> rest[i] == ws[i + 1];
      if i :| 0 <= i < |ws| && ws[i].key == id {
        assert i > 0 ==> rest[i - 1].key == id;
      }
    }
  }

  lemma {:induction false} EdgeRowsStamp(
    edges: map<EdgeKey, Props>, present: set<Id>, ws: seq<EdgeWrite>, version: int, k: EdgeKey)
    ensures var after := MergeEdges(edges, present, ws, version);
            && (Linkable(k, present) && (exists i :: 0 <= i < |ws| && ws[i].key == k) ==>
                  k in after && StampedWith(after[k], "updated_version", version))
            && (!(exists i :: 0 <= i < |ws| && ws[i].key == k) || !Linkable(k, present) ==>
                  (k in after <==> k in edges) && (k in edges ==> after[k] == edges[k]))
    decreases ws
  {
    if ws != [] {
      var rest, mid := ws[1..], MergeEdge(edges, present, ws[0], version);
      EdgeRowsStamp(mid, present, rest, version, k);
      assert forall i :: 0 <= i < |rest| ==> rest[i] == ws[i + 1];
      if i :| 0 <= i < |ws| && ws[i].key == k {
        assert i > 0 ==> rest[i - 1].key == k;
      }
    }
  }

  /** One transaction: the nodes and the linkable edges it writes carry its version, and everything
      else is as it was. */
  lemma {:induction false} TransactionStamps(g: Graph, cs: seq<Subgraph>, version: int, id: Id, k: EdgeKey)
    ensures var after := WriteAll(g, cs, version);
            && (id in Keys(AllNodeWrites(cs)) ==> id in after.nodes && StampedWith(after.nodes[id].props, "updated_version", version))
            && (id !in Keys(AllNodeWrites(cs)) ==>
                  (id in after.nodes <==> id in g.nodes) && (id in g.nodes ==> after.nodes[id] == g.nodes[id]))
            && (k in Keys(AllEdgeWrites(cs)) && Linkable(k, after.nodes.Keys) ==>
                  k in after.edges && StampedWith(after.edges[k], "updated_version", version))
            && (k !in Keys(AllEdgeWrites(cs)) || !Linkable(k, after.nodes.Keys) ==>
                  (k in after.edges <==> k in g.edges) && (k in g.edges ==> after.edges[k] == g.edges[k]))
  {
    var nodes, edges := Flat(Grouped(AllNodeWrites(cs), true)), Flat(Grouped(AllEdgeWrites(cs), false));
    RegroupedKeys(AllNodeWrites(cs), true);
    RegroupedKeys(AllEdgeWrites(cs), false);
    KeyAmong(nodes, id);
    KeyAmong(edges, k);
    NodeRowsStamp(g.nodes, nodes, version, id);
    EdgeRowsStamp(g.edges, MergeNodes(g.nodes, nodes, version).Keys, edges, version, k);
  }

  /** An edge is only ever stored between two stored nodes. */
  lemma {:induction false} EdgesJoinNodes(g: Graph, cs: seq<Subgraph>, version: int, k: EdgeKey)
    requires k in g.edges ==> k.src in g.nodes && k.dst in g.nodes
    ensures var after := WriteAll(g, cs, version); k in after.edges ==> k.src in after.nodes && k.dst in after.nodes
  {
    KeysOfBatch(g, cs, version);
    EdgesOfBatch(g, cs, version, k);
    assert k in WriteAll(g, cs, version).edges <==> SeenEdge(WriteAll(g, cs, version).edges, k).Edge?;
    assert k in g.edges <==> SeenEdge(g.edges, k).Edge?;
  }
}
