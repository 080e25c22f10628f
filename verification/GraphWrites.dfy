/** One batched transaction against writing the subgraphs one at a time, and replay. */
module GraphWrites {
  import opened Properties
  import opened Regrouping
  import opened Schemas
  import opened Batching
  import opened Store

  /** A list of subgraphs handed to `write` in order, one version each. */
  function Fold(write: (Graph, Subgraph, int) -> Graph, g: Graph, cs: seq<Subgraph>, version: int): Graph
    decreases cs
  {
    if cs == [] then g else Fold(write, write(g, cs[0], version), cs[1..], version + 1)
  }

  lemma {:induction false} FoldConcat(write: (Graph, Subgraph, int) -> Graph, g: Graph, a: seq<Subgraph>, b: seq<Subgraph>, version: int)
    ensures Fold(write, g, a + b, version) == Fold(write, Fold(write, g, a, version), b, version + |a|)
    decreases a
  {
    if a == [] {
      assert a + b == b;
    } else {
      assert (a + b)[0] == a[0] && (a + b)[1..] == a[1..] + b;
      FoldConcat(write, write(g, a[0], version), a[1..], b, version + 1);
    }
  }

  function Alone(): (Graph, Subgraph, int) -> Graph {
    (g, c, version) => WriteTx(g, GroupedBatch([c]), version)
  }

  /** The subgraphs written alone, one transaction each. */
  function WriteEach(g: Graph, cs: seq<Subgraph>, version: int): Graph {
    Fold(Alone(), g, cs, version)
  }

  function WriteAll(g: Graph, cs: seq<Subgraph>, version: int): Graph {
    WriteTx(g, GroupedBatch(cs), version)
  }

  // ---- the graph with its version stamps left out -----------------------------------------

  datatype NodeView = NoNode | Node(labels: set<NodeType>, props: Props)

  datatype EdgeView = NoEdge | Edge(props: Props)

  function SeenNode(nodes: map<Id, NodeState>, id: Id): NodeView {
    if id in nodes then Node(nodes[id].labels, Erased(nodes[id].props)) else NoNode
  }

  function SeenEdge(edges: map<EdgeKey, Props>, k: EdgeKey): EdgeView {
    if k in edges then Edge(Erased(edges[k])) else NoEdge
  }

  ghost predicate SameNodes(a: Graph, b: Graph) {
    forall id :: SeenNode(a.nodes, id) == SeenNode(b.nodes, id)
  }

  ghost predicate SameEdges(a: Graph, b: Graph) {
    forall k :: SeenEdge(a.edges, k) == SeenEdge(b.edges, k)
  }

  /** Every edge of `a` is in `b` with at least its properties. */
  ghost predicate EdgesContained(a: Graph, b: Graph) {
    forall k :: k in a.edges ==> k in b.edges && Submap(Erased(a.edges[k]), Erased(b.edges[k]))
  }

  /** A stored edge joins stored nodes. */
  ghost predicate WellFormed(g: Graph) {
    forall k :: k in g.edges ==> Linkable(k, g.nodes.Keys)
  }

  // ---- what a transaction does to one node or one edge ------------------------------------

  function LabelsOn(ws: seq<NodeWrite>, id: Id): set<NodeType> {
    if ws == [] then {}
    else LabelsOn(ws[..|ws| - 1], id) + if ws[|ws| - 1].key == id then {ws[|ws| - 1].cls} else {}
  }

  function WithNode(seen: NodeView, labels: set<NodeType>, e: Effect): NodeView {
    match e
    case Untouched => seen
    case Sets(p) =>
      if seen.Node? then Node(seen.labels + labels, seen.props + Erased(p)) else Node(labels, Erased(p))
  }

  function WithEdge(seen: EdgeView, e: Effect): EdgeView {
    match e
    case Untouched => seen
    case Sets(p) => if seen.Edge? then Edge(seen.props + Erased(p)) else Edge(Erased(p))
  }

  lemma {:induction false} LabelsConcat(a: seq<NodeWrite>, b: seq<NodeWrite>, id: Id)
    ensures LabelsOn(a + b, id) == LabelsOn(a, id) + LabelsOn(b, id)
    decreases |b|
  {
    if b == [] {
      assert a + b == a;
    } else {
      assert (a + b)[..|a + b| - 1] == a + b[..|b| - 1];
      LabelsConcat(a, b[..|b| - 1], id);
    }
  }

  lemma {:induction false} LabelsAreTouched(ws: seq<NodeWrite>, c: NodeType, id: Id)
    ensures c in LabelsOn(ws, id) <==> EffectUnder(ws, c, id).Sets?
    decreases |ws|
  {
    if ws != [] {
      LabelsAreTouched(ws[..|ws| - 1], c, id);
    }
  }

  lemma {:induction false} UntouchedHasNoLabels(ws: seq<NodeWrite>, id: Id)
    ensures EffectOn(ws, id).Untouched? ==> LabelsOn(ws, id) == {}
    decreases |ws|
  {
    if ws != [] {
      UntouchedHasNoLabels(ws[..|ws| - 1], id);
    }
  }

  lemma {:induction false} WithNodeTwice(seen: NodeView, l: set<NodeType>, e: Effect, m: set<NodeType>, f: Effect)
    requires e.Untouched? ==> l == {}
    requires f.Untouched? ==> m == {}
    ensures WithNode(WithNode(seen, l, e), m, f) == WithNode(seen, l + m, Then(e, f))
  {
    if e.Sets? && f.Sets? {
      ErasedMerge(e.props, f.props);
    }
  }

  lemma {:induction false} WithEdgeTwice(seen: EdgeView, e: Effect, f: Effect)
    ensures WithEdge(WithEdge(seen, e), f) == WithEdge(seen, Then(e, f))
  {
    if e.Sets? && f.Sets? {
      ErasedMerge(e.props, f.props);
    }
  }

  lemma {:induction false} SingleEffect<C, K>(w: Write<C, K>, k: K)
    ensures EffectOn([w], k) == if w.key == k then Sets(w.props) else Untouched
  {
    assert [w][..0] == [];
  }

  lemma {:induction false} MergeNodeAt(nodes: map<Id, NodeState>, w: NodeWrite, version: int, id: Id)
    ensures SeenNode(MergeNode(nodes, w, version), id)
         == WithNode(SeenNode(nodes, id), LabelsOn([w], id), EffectOn([w], id))
  {
    SingleEffect(w, id);
    assert [w][..0] == [];
    if w.key == id {
      var was := if id in nodes then nodes[id].props else Stamp("created_version", version);
      assert Erased(was + w.props + Stamp("updated_version", version)) == Erased(was) + Erased(w.props);
    }
  }

  lemma {:induction false} MergeEdgeAt(edges: map<EdgeKey, Props>, present: set<Id>, w: EdgeWrite, version: int, k: EdgeKey)
    ensures SeenEdge(MergeEdge(edges, present, w, version), k)
         == WithEdge(SeenEdge(edges, k), if Linkable(k, present) then EffectOn([w], k) else Untouched)
  {
    SingleEffect(w, k);
    if w.key == k {
      var was := if k in edges then edges[k] else map[];
      assert Erased(was + w.props + Stamp("updated_version", version)) == Erased(was) + Erased(w.props);
    }
  }

  lemma {:induction false} MergeNodesAt(nodes: map<Id, NodeState>, ws: seq<NodeWrite>, version: int, id: Id)
    ensures SeenNode(MergeNodes(nodes, ws, version), id)
         == WithNode(SeenNode(nodes, id), LabelsOn(ws, id), EffectOn(ws, id))
    decreases ws
  {
    if ws != [] {
      var w, rest := ws[0], ws[1..];
      assert ws == [w] + rest;
      MergeNodeAt(nodes, w, version, id);
      MergeNodesAt(MergeNode(nodes, w, version), rest, version, id);
      EffectOnConcat([w], rest, id);
      LabelsConcat([w], rest, id);
      UntouchedHasNoLabels([w], id);
      UntouchedHasNoLabels(rest, id);
      WithNodeTwice(SeenNode(nodes, id), LabelsOn([w], id), EffectOn([w], id), LabelsOn(rest, id), EffectOn(rest, id));
    }
  }

  lemma {:induction false} MergeEdgesAt(edges: map<EdgeKey, Props>, present: set<Id>, ws: seq<EdgeWrite>,
                                        version: int, k: EdgeKey)
    ensures SeenEdge(MergeEdges(edges, present, ws, version), k)
         == WithEdge(SeenEdge(edges, k), if Linkable(k, present) then EffectOn(ws, k) else Untouched)
    decreases ws
  {
    if ws != [] {
      var w, rest := ws[0], ws[1..];
      assert ws == [w] + rest;
      MergeEdgeAt(edges, present, w, version, k);
      MergeEdgesAt(MergeEdge(edges, present, w, version), present, rest, version, k);
      EffectOnConcat([w], rest, k);
      if Linkable(k, present) {
        WithEdgeTwice(SeenEdge(edges, k), EffectOn([w], k), EffectOn(rest, k));
      }
    }
  }

  /** The stored ids after a transaction are the old ones and those of its node rows. */
  lemma {:induction false} MergedKeys(nodes: map<Id, NodeState>, ws: seq<NodeWrite>, version: int)
    ensures MergeNodes(nodes, ws, version).Keys == nodes.Keys + Keys(ws)
  {
    forall id
      ensures id in MergeNodes(nodes, ws, version) <==> id in nodes || id in Keys(ws)
    {
      MergeNodesAt(nodes, ws, version, id);
      KeysAreTouched(ws, id);
      assert SeenNode(MergeNodes(nodes, ws, version), id).Node? <==> id in MergeNodes(nodes, ws, version);
    }
  }

  // ---- one batch, seen through its ungrouped writes ---------------------------------------

  lemma {:induction false} NodesOfBatch(g: Graph, cs: seq<Subgraph>, version: int, id: Id)
    requires OneClass(AllNodeWrites(cs))
    ensures SeenNode(WriteAll(g, cs, version).nodes, id)
         == WithNode(SeenNode(g.nodes, id), LabelsOn(AllNodeWrites(cs), id), EffectOn(AllNodeWrites(cs), id))
  {
    var ws := AllNodeWrites(cs);
    RegroupingKeepsEffects(ws, true, id);
    LabelsRegrouped(ws, id);
    MergeNodesAt(g.nodes, Flat(Grouped(ws, true)), version, id);
  }

  lemma {:induction false} LabelsRegrouped(ws: seq<NodeWrite>, id: Id)
    ensures LabelsOn(Flat(Grouped(ws, true)), id) == LabelsOn(ws, id)
  {
    forall c
      ensures c in LabelsOn(Flat(Grouped(ws, true)), id) <==> c in LabelsOn(ws, id)
    {
      LabelsAreTouched(Flat(Grouped(ws, true)), c, id);
      LabelsAreTouched(ws, c, id);
      RegroupingKeepsClasses(ws, true, c, id);
    }
  }

  lemma {:induction false} TouchedIsKey<C, K>(ws: seq<Write<C, K>>, c: C, k: K)
    ensures EffectUnder(ws, c, k).Sets? ==> k in Keys(ws)
    decreases |ws|
  {
    if ws != [] {
      TouchedIsKey(ws[..|ws| - 1], c, k);
    }
  }

  lemma {:induction false} ClassOfKey<C, K>(ws: seq<Write<C, K>>, k: K) returns (c: C)
    requires k in Keys(ws)
    ensures EffectUnder(ws, c, k).Sets?
    decreases |ws|
  {
    if ws[|ws| - 1].key == k {
      c := ws[|ws| - 1].cls;
    } else {
      c := ClassOfKey(ws[..|ws| - 1], k);
    }
  }

  lemma {:induction false} RegroupedKeys<C, K>(ws: seq<Write<C, K>>, dedup: bool)
    ensures Keys(Flat(Grouped(ws, dedup))) == Keys(ws)
  {
    var flat := Flat(Grouped(ws, dedup));
    forall k: K | k in Keys(ws)
      ensures k in Keys(flat)
    {
      var c := ClassOfKey(ws, k);
      RegroupingKeepsClasses(ws, dedup, c, k);
      TouchedIsKey(flat, c, k);
    }
    forall k: K | k in Keys(flat)
      ensures k in Keys(ws)
    {
      var c := ClassOfKey(flat, k);
      RegroupingKeepsClasses(ws, dedup, c, k);
      TouchedIsKey(ws, c, k);
    }
  }

  lemma {:induction false} KeysOfBatch(g: Graph, cs: seq<Subgraph>, version: int)
    ensures WriteAll(g, cs, version).nodes.Keys == g.nodes.Keys + Keys(AllNodeWrites(cs))
  {
    MergedKeys(g.nodes, Flat(Grouped(AllNodeWrites(cs), true)), version);
    RegroupedKeys(AllNodeWrites(cs), true);
  }

  /** An edge's key holds its type, so no edge is written under two types. */
  lemma {:induction false} EdgesHaveOneClass(cs: seq<Subgraph>)
    ensures OneClass(AllEdgeWrites(cs))
  {
    forall i | 0 <= i < |AllEdgeWrites(cs)|
      ensures AllEdgeWrites(cs)[i].cls == AllEdgeWrites(cs)[i].key.edgeType
    {
      EdgeClassAt(cs, i);
    }
  }

  lemma {:induction false} EdgeClassAt(cs: seq<Subgraph>, i: nat)
    requires i < |AllEdgeWrites(cs)|
    ensures AllEdgeWrites(cs)[i].cls == AllEdgeWrites(cs)[i].key.edgeType
    decreases cs
  {
    var n := |EdgeWrites(cs[0])|;
    if i < n {
      EdgeClassIn(cs[0].edges, IdMap(cs[0]), i);
    } else {
      EdgeClassAt(cs[1..], i - n);
    }
  }

  lemma {:induction false} EdgeClassIn(edges: seq<CandidateEdge>, ids: map<string, Id>, i: nat)
    requires i < |EdgeWritesOf(edges, ids)|
    ensures EdgeWritesOf(edges, ids)[i].cls == EdgeWritesOf(edges, ids)[i].key.edgeType
    decreases edges
  {
    if i > 0 {
      EdgeClassIn(edges[1..], ids, i - 1);
    }
  }

  lemma {:induction false} EdgesOfBatch(g: Graph, cs: seq<Subgraph>, version: int, k: EdgeKey)
    ensures SeenEdge(WriteAll(g, cs, version).edges, k)
         == WithEdge(SeenEdge(g.edges, k),
                     if Linkable(k, g.nodes.Keys + Keys(AllNodeWrites(cs))) then EffectOn(AllEdgeWrites(cs), k) else Untouched)
  {
    KeysOfBatch(g, cs, version);
    EdgesHaveOneClass(cs);
    RegroupingKeepsEffects(AllEdgeWrites(cs), false, k);
    MergeEdgesAt(g.edges, WriteAll(g, cs, version).nodes.Keys, Flat(Grouped(AllEdgeWrites(cs), false)), version, k);
  }

  // ---- the subgraphs one at a time --------------------------------------------------------

  lemma {:induction false} OneClassParts(cs: seq<Subgraph>)
    requires cs != [] && OneClass(AllNodeWrites(cs))
    ensures AllNodeWrites([cs[0]]) == NodeWrites(cs[0]) && OneClass(AllNodeWrites([cs[0]]))
    ensures AllEdgeWrites([cs[0]]) == EdgeWrites(cs[0])
    ensures OneClass(AllNodeWrites(cs[1..]))
  {
    var head, rest := NodeWrites(cs[0]), AllNodeWrites(cs[1..]);
    var both := head + rest;
    assert AllNodeWrites(cs) == both;
    forall i, j | 0 <= i < |rest| && 0 <= j < |rest| && rest[i].key == rest[j].key
      ensures rest[i].cls == rest[j].cls
    {
      assert both[|head| + i] == rest[i] && both[|head| + j] == rest[j];
    }
    forall i, j | 0 <= i < |head| && 0 <= j < |head| && head[i].key == head[j].key
      ensures head[i].cls == head[j].cls
    {
      assert both[i] == head[i] && both[j] == head[j];
    }
  }

  lemma {:induction false} NodesOfEach(g: Graph, cs: seq<Subgraph>, version: int, id: Id)
    requires OneClass(AllNodeWrites(cs))
    ensures SeenNode(WriteEach(g, cs, version).nodes, id)
         == WithNode(SeenNode(g.nodes, id), LabelsOn(AllNodeWrites(cs), id), EffectOn(AllNodeWrites(cs), id))
    decreases cs
  {
    if cs != [] {
      OneClassParts(cs);
      var head, rest := NodeWrites(cs[0]), AllNodeWrites(cs[1..]);
      NodesOfBatch(g, [cs[0]], version, id);
      NodesOfEach(WriteAll(g, [cs[0]], version), cs[1..], version + 1, id);
      EffectOnConcat(head, rest, id);
      LabelsConcat(head, rest, id);
      UntouchedHasNoLabels(head, id);
      UntouchedHasNoLabels(rest, id);
      WithNodeTwice(SeenNode(g.nodes, id), LabelsOn(head, id), EffectOn(head, id), LabelsOn(rest, id), EffectOn(rest, id));
    }
  }

  /** What the subgraphs do to an edge when each sees only the nodes written up to it. */
  function TimelyEffect(present: set<Id>, cs: seq<Subgraph>, k: EdgeKey): Effect
    decreases cs
  {
    if cs == [] then Untouched
    else
      var now := present + Keys(NodeWrites(cs[0]));
      Then(if Linkable(k, now) then EffectOn(EdgeWrites(cs[0]), k) else Untouched, TimelyEffect(now, cs[1..], k))
  }

  lemma {:induction false} EdgesOfEach(g: Graph, cs: seq<Subgraph>, version: int, k: EdgeKey)
    requires OneClass(AllNodeWrites(cs))
    ensures SeenEdge(WriteEach(g, cs, version).edges, k)
         == WithEdge(SeenEdge(g.edges, k), TimelyEffect(g.nodes.Keys, cs, k))
    decreases cs
  {
    if cs != [] {
      OneClassParts(cs);
      var g' := WriteAll(g, [cs[0]], version);
      var now := g.nodes.Keys + Keys(NodeWrites(cs[0]));
      KeysOfBatch(g, [cs[0]], version);
      EdgesOfBatch(g, [cs[0]], version, k);
      EdgesOfEach(g', cs[1..], version + 1, k);
      WithEdgeTwice(SeenEdge(g.edges, k), if Linkable(k, now) then EffectOn(EdgeWrites(cs[0]), k) else Untouched,
                    TimelyEffect(now, cs[1..], k));
    }
  }

  lemma {:induction false} KeysConcat<C, K>(a: seq<Write<C, K>>, b: seq<Write<C, K>>)
    ensures Keys(a + b) == Keys(a) + Keys(b)
    decreases |b|
  {
    if b == [] {
      assert a + b == a;
    } else {
      assert (a + b)[..|a + b| - 1] == a + b[..|b| - 1];
      KeysConcat(a, b[..|b| - 1]);
    }
  }

  /** Properties of `e` are properties of `f`. */
  ghost predicate Within(e: Effect, f: Effect) {
    e.Sets? ==> f.Sets? && Submap(e.props, f.props)
  }

  /** The timely writes of an edge are among all its writes, and are all of them once its
      endpoints are stored. */
  lemma {:induction false} TimelyWithin(present: set<Id>, cs: seq<Subgraph>, k: EdgeKey)
    ensures Within(TimelyEffect(present, cs, k), EffectOn(AllEdgeWrites(cs), k))
    ensures TimelyEffect(present, cs, k).Sets? ==> Linkable(k, present + Keys(AllNodeWrites(cs)))
    ensures Linkable(k, present) ==> TimelyEffect(present, cs, k) == EffectOn(AllEdgeWrites(cs), k)
    decreases cs
  {
    if cs != [] {
      var now := present + Keys(NodeWrites(cs[0]));
      TimelyWithin(now, cs[1..], k);
      EffectOnConcat(EdgeWrites(cs[0]), AllEdgeWrites(cs[1..]), k);
      KeysConcat(NodeWrites(cs[0]), AllNodeWrites(cs[1..]));
    }
  }

  // ---- the theorems ------------------------------------------------------------------------

  /** No write of an edge comes before the nodes that would have let it link. */
  ghost predicate Timely(present: set<Id>, cs: seq<Subgraph>, final: set<Id>)
    decreases cs
  {
    cs == [] ||
    (var now := present + Keys(NodeWrites(cs[0]));
     && (forall k :: EffectOn(EdgeWrites(cs[0]), k).Sets? && Linkable(k, final) ==> Linkable(k, now))
     && Timely(now, cs[1..], final))
  }

  /** Every edge ends in nodes of the same subgraph or in nodes already stored. */
  ghost predicate Closed(present: set<Id>, cs: seq<Subgraph>)
    decreases cs
  {
    cs == [] ||
    (var now := present + Keys(NodeWrites(cs[0]));
     && (forall k :: EffectOn(EdgeWrites(cs[0]), k).Sets? ==> Linkable(k, now))
     && Closed(now, cs[1..]))
  }

  lemma {:induction false} ClosedIsTimely(present: set<Id>, cs: seq<Subgraph>, final: set<Id>)
    requires Closed(present, cs)
    ensures Timely(present, cs, final)
    decreases cs
  {
    if cs != [] {
      ClosedIsTimely(present + Keys(NodeWrites(cs[0])), cs[1..], final);
    }
  }

  lemma {:induction false} TimelyIsAll(present: set<Id>, cs: seq<Subgraph>, final: set<Id>, k: EdgeKey)
    requires Timely(present, cs, final) && Linkable(k, final)
    ensures TimelyEffect(present, cs, k) == EffectOn(AllEdgeWrites(cs), k)
    decreases cs
  {
    if cs != [] {
      TimelyIsAll(present + Keys(NodeWrites(cs[0])), cs[1..], final, k);
      EffectOnConcat(EdgeWrites(cs[0]), AllEdgeWrites(cs[1..]), k);
    }
  }

  /** Main theorem, nodes: when an id determines its label, one batched transaction leaves the
      nodes, labels and properties that writing the subgraphs one at a time leaves. */
  lemma {:induction false} BatchedNodesAreSequential(g: Graph, cs: seq<Subgraph>, v: int, w: int)
    requires OneClass(AllNodeWrites(cs))
    ensures SameNodes(WriteAll(g, cs, v), WriteEach(g, cs, w))
  {
    forall id
      ensures SeenNode(WriteAll(g, cs, v).nodes, id) == SeenNode(WriteEach(g, cs, w).nodes, id)
    {
      NodesOfBatch(g, cs, v, id);
      NodesOfEach(g, cs, w, id);
    }
  }

  /** Main theorem, edges: nothing that sequential writing stores is missing from the batch. */
  lemma {:induction false} SequentialEdgesAreBatched(g: Graph, cs: seq<Subgraph>, v: int, w: int)
    requires WellFormed(g) && OneClass(AllNodeWrites(cs))
    ensures EdgesContained(WriteEach(g, cs, w), WriteAll(g, cs, v))
  {
    var a, b := WriteEach(g, cs, w), WriteAll(g, cs, v);
    forall k | k in a.edges
      ensures k in b.edges && Submap(Erased(a.edges[k]), Erased(b.edges[k]))
    {
      EdgesOfBatch(g, cs, v, k);
      EdgesOfEach(g, cs, w, k);
      TimelyWithin(g.nodes.Keys, cs, k);
      assert SeenEdge(a.edges, k).Edge?;
      assert SeenEdge(b.edges, k).Edge?;
    }
  }

  /** ... and the edges are equal when every write comes in time, in particular when the
      subgraphs are closed. */
  lemma {:induction false} TimelyEdgesAreEqual(g: Graph, cs: seq<Subgraph>, v: int, w: int)
    requires OneClass(AllNodeWrites(cs))
    requires Timely(g.nodes.Keys, cs, g.nodes.Keys + Keys(AllNodeWrites(cs))) || Closed(g.nodes.Keys, cs)
    ensures SameEdges(WriteEach(g, cs, w), WriteAll(g, cs, v))
  {
    var final := g.nodes.Keys + Keys(AllNodeWrites(cs));
    if Closed(g.nodes.Keys, cs) {
      ClosedIsTimely(g.nodes.Keys, cs, final);
    }
    forall k
      ensures SeenEdge(WriteEach(g, cs, w).edges, k) == SeenEdge(WriteAll(g, cs, v).edges, k)
    {
      EdgesOfBatch(g, cs, v, k);
      EdgesOfEach(g, cs, w, k);
      TimelyWithin(g.nodes.Keys, cs, k);
      if Linkable(k, final) {
        TimelyIsAll(g.nodes.Keys, cs, final, k);
      }
    }
  }

  /** Some subgraph writes the edge when both its endpoints are stored. */
  predicate WrittenInTime(present: set<Id>, cs: seq<Subgraph>, k: EdgeKey)
    decreases cs
  {
    cs != [] &&
    (var now := present + Keys(NodeWrites(cs[0]));
     (k in Keys(EdgeWrites(cs[0])) && Linkable(k, now)) || WrittenInTime(now, cs[1..], k))
  }

  lemma {:induction false} InTimeEffect(present: set<Id>, cs: seq<Subgraph>, k: EdgeKey)
    ensures WrittenInTime(present, cs, k) <==> TimelyEffect(present, cs, k).Sets?
    decreases cs
  {
    if cs != [] {
      InTimeEffect(present + Keys(NodeWrites(cs[0])), cs[1..], k);
      KeysAreTouched(EdgeWrites(cs[0]), k);
    }
  }

  lemma {:induction false} StoredEdges(g: Graph, cs: seq<Subgraph>, v: int, w: int, k: EdgeKey)
    requires OneClass(AllNodeWrites(cs))
    ensures k in WriteEach(g, cs, w).edges <==> k in g.edges || WrittenInTime(g.nodes.Keys, cs, k)
    ensures k in WriteAll(g, cs, v).edges <==>
            k in g.edges || (k in Keys(AllEdgeWrites(cs)) && Linkable(k, g.nodes.Keys + Keys(AllNodeWrites(cs))))
    ensures WrittenInTime(g.nodes.Keys, cs, k) ==> k in WriteAll(g, cs, v).edges
  {
    EdgesOfBatch(g, cs, v, k);
    EdgesOfEach(g, cs, w, k);
    InTimeEffect(g.nodes.Keys, cs, k);
    TimelyWithin(g.nodes.Keys, cs, k);
    KeysAreTouched(AllEdgeWrites(cs), k);
    assert SeenEdge(WriteEach(g, cs, w).edges, k).Edge? <==> k in WriteEach(g, cs, w).edges;
    assert SeenEdge(WriteAll(g, cs, v).edges, k).Edge? <==> k in WriteAll(g, cs, v).edges;
  }

  /** Exactly when sequential writing loses no edge: every edge that the whole list can link is
      stored already or written at least once after both of its endpoints. */
  lemma {:induction false} SameEdgeKeysExactlyWhen(g: Graph, cs: seq<Subgraph>, v: int, w: int)
    requires OneClass(AllNodeWrites(cs))
    ensures WriteEach(g, cs, w).edges.Keys == WriteAll(g, cs, v).edges.Keys
       <==> forall k :: k in Keys(AllEdgeWrites(cs)) && Linkable(k, g.nodes.Keys + Keys(AllNodeWrites(cs)))
                   ==> k in g.edges || WrittenInTime(g.nodes.Keys, cs, k)
  {
    var a, b := WriteEach(g, cs, w).edges.Keys, WriteAll(g, cs, v).edges.Keys;
    forall k
      ensures k in a <==> k in g.edges || WrittenInTime(g.nodes.Keys, cs, k)
      ensures k in b <==> k in g.edges || (k in Keys(AllEdgeWrites(cs)) && Linkable(k, g.nodes.Keys + Keys(AllNodeWrites(cs))))
      ensures k in a ==> k in b
    {
      StoredEdges(g, cs, v, w, k);
    }
  }

  /** What the subgraphs ask of an edge before it can link: the writes MATCH drops. */
  function EarlyEffect(present: set<Id>, cs: seq<Subgraph>, k: EdgeKey): Effect
    decreases cs
  {
    if cs == [] then Untouched
    else
      var now := present + Keys(NodeWrites(cs[0]));
      Then(if Linkable(k, now) then Untouched else EffectOn(EdgeWrites(cs[0]), k), EarlyEffect(now, cs[1..], k))
  }

  lemma {:induction false} LinkableHasNoEarly(present: set<Id>, cs: seq<Subgraph>, k: EdgeKey)
    requires Linkable(k, present)
    ensures EarlyEffect(present, cs, k) == Untouched
    decreases cs
  {
    if cs != [] {
      LinkableHasNoEarly(present + Keys(NodeWrites(cs[0])), cs[1..], k);
    }
  }

  /** The early writes of an edge come before its timely ones, and there are no others. */
  lemma {:induction false} EarlyThenTimely(present: set<Id>, cs: seq<Subgraph>, k: EdgeKey)
    ensures EffectOn(AllEdgeWrites(cs), k) == Then(EarlyEffect(present, cs, k), TimelyEffect(present, cs, k))
    decreases cs
  {
    if cs != [] {
      var now := present + Keys(NodeWrites(cs[0]));
      EarlyThenTimely(now, cs[1..], k);
      EffectOnConcat(EdgeWrites(cs[0]), AllEdgeWrites(cs[1..]), k);
      if Linkable(k, now) {
        LinkableHasNoEarly(now, cs[1..], k);
      } else {
        ThenAssociates(EffectOn(EdgeWrites(cs[0]), k), EarlyEffect(now, cs[1..], k), TimelyEffect(now, cs[1..], k));
      }
    }
  }

  /** Nothing of what the early writes ask is missing in the end: the edge is stored or written in
      time, and every property is set again in time or stored already with that value. */
  predicate Recovered(seen: EdgeView, early: Effect, timely: Effect) {
    early.Sets? ==>
      && (seen.Edge? || timely.Sets?)
      && forall key :: key in Erased(early.props) ==>
           || (timely.Sets? && key in Erased(timely.props))
           || (seen.Edge? && key in seen.props && seen.props[key] == Erased(early.props)[key])
  }

  lemma {:induction false} RecoveredIsSame(seen: EdgeView, early: Effect, timely: Effect)
    ensures WithEdge(seen, timely) == WithEdge(seen, Then(early, timely)) <==> Recovered(seen, early, timely)
  {
    if early.Sets? {
      var base: Props := if seen.Edge? then seen.props else map[];
      var p, q := Erased(early.props), if timely.Sets? then Erased(timely.props) else map[];
      if timely.Sets? {
        ErasedMerge(early.props, timely.props);
        assert base + (p + q) == (base + p) + q;
      }
      OverrideVanishes(base, p, q);
      assert base + map[] == base && p + map[] == p && map[] + q == q;
    }
  }

  /** An override in the middle shows unless everything in it is set again or was there before. */
  lemma {:induction false} OverrideVanishes(base: Props, p: Props, q: Props)
    ensures base + q == base + (p + q) <==>
            forall key :: key in p ==> key in q || (key in base && base[key] == p[key])
  {
    var without, within := base + q, base + (p + q);
    if forall key :: key in p ==> key in q || (key in base && base[key] == p[key]) {
      assert without.Keys == within.Keys;
      assert without == within;
    } else {
      var key :| key in p && key !in q && !(key in base && base[key] == p[key]);
      assert key in within && within[key] == p[key];
    }
  }

  /** Main theorem, edges exactly: sequential writing stores the same edges with the same
      properties as one batched transaction if and only if, for every edge the whole list can link,
      whatever was asked of it too early is recovered. */
  lemma {:induction false} SameEdgesExactlyWhen(g: Graph, cs: seq<Subgraph>, v: int, w: int)
    requires OneClass(AllNodeWrites(cs))
    ensures SameEdges(WriteEach(g, cs, w), WriteAll(g, cs, v))
       <==> forall k :: Linkable(k, g.nodes.Keys + Keys(AllNodeWrites(cs))) ==>
              Recovered(SeenEdge(g.edges, k), EarlyEffect(g.nodes.Keys, cs, k), TimelyEffect(g.nodes.Keys, cs, k))
  {
    var final := g.nodes.Keys + Keys(AllNodeWrites(cs));
    forall k
      ensures SeenEdge(WriteEach(g, cs, w).edges, k) == SeenEdge(WriteAll(g, cs, v).edges, k)
         <==> (Linkable(k, final) ==>
                 Recovered(SeenEdge(g.edges, k), EarlyEffect(g.nodes.Keys, cs, k), TimelyEffect(g.nodes.Keys, cs, k)))
    {
      SameEdgeExactlyWhen(g, cs, v, w, k);
    }
  }

  lemma {:induction false} SameEdgeExactlyWhen(g: Graph, cs: seq<Subgraph>, v: int, w: int, k: EdgeKey)
    requires OneClass(AllNodeWrites(cs))
    ensures SeenEdge(WriteEach(g, cs, w).edges, k) == SeenEdge(WriteAll(g, cs, v).edges, k)
       <==> (Linkable(k, g.nodes.Keys + Keys(AllNodeWrites(cs))) ==>
               Recovered(SeenEdge(g.edges, k), EarlyEffect(g.nodes.Keys, cs, k), TimelyEffect(g.nodes.Keys, cs, k)))
  {
    var present, seen := g.nodes.Keys, SeenEdge(g.edges, k);
    EdgesOfBatch(g, cs, v, k);
    EdgesOfEach(g, cs, w, k);
    EarlyThenTimely(present, cs, k);
    TimelyWithin(present, cs, k);
    RecoveredIsSame(seen, EarlyEffect(present, cs, k), TimelyEffect(present, cs, k));
  }

  // ---- replay ------------------------------------------------------------------------------

  lemma {:induction false} EffectAgain(e: Effect, seen: EdgeView, node: NodeView, l: set<NodeType>)
    ensures WithEdge(WithEdge(seen, e), e) == WithEdge(seen, e)
    ensures WithNode(WithNode(node, l, e), l, e) == WithNode(node, l, e)
  {
  }

  /** Any batch written again right after itself changes nothing but version stamps, whatever
      rows share an id or an edge key. */
  lemma {:induction false} ReplayedBatchIsHarmless(g: Graph, b: Batch, v: int, w: int)
    ensures SameNodes(WriteTx(WriteTx(g, b, v), b, w), WriteTx(g, b, v))
    ensures SameEdges(WriteTx(WriteTx(g, b, v), b, w), WriteTx(g, b, v))
  {
    var once := WriteTx(g, b, v);
    var twice := WriteTx(once, b, w);
    var nodes, edges := Flat(b.nodesByLabel), Flat(b.edgesByType);
    MergedKeys(g.nodes, nodes, v);
    MergedKeys(once.nodes, nodes, w);
    forall id
      ensures SeenNode(twice.nodes, id) == SeenNode(once.nodes, id)
    {
      MergeNodesAt(g.nodes, nodes, v, id);
      MergeNodesAt(once.nodes, nodes, w, id);
      EffectAgain(EffectOn(nodes, id), NoEdge, SeenNode(g.nodes, id), LabelsOn(nodes, id));
    }
    forall k
      ensures SeenEdge(twice.edges, k) == SeenEdge(once.edges, k)
    {
      MergeEdgesAt(g.edges, once.nodes.Keys, edges, v, k);
      MergeEdgesAt(once.edges, twice.nodes.Keys, edges, w, k);
      assert twice.nodes.Keys == once.nodes.Keys;
      EffectAgain(EffectOn(edges, k), SeenEdge(g.edges, k), NoNode, {});
    }
  }

  lemma {:induction false} WithinAbsorbed(seen: EdgeView, e: Effect, f: Effect)
    requires Within(e, f)
    ensures WithEdge(WithEdge(seen, e), f) == WithEdge(seen, f)
  {
    if e.Sets? && f.Sets? {
      assert Erased(e.props) + Erased(f.props) == Erased(f.props);
    }
  }

  lemma {:induction false} KeysOfEach(g: Graph, cs: seq<Subgraph>, version: int)
    requires OneClass(AllNodeWrites(cs))
    ensures WriteEach(g, cs, version).nodes.Keys == g.nodes.Keys + Keys(AllNodeWrites(cs))
  {
    forall id
      ensures id in WriteEach(g, cs, version).nodes <==> id in g.nodes || id in Keys(AllNodeWrites(cs))
    {
      NodesOfEach(g, cs, version, id);
      KeysAreTouched(AllNodeWrites(cs), id);
      assert SeenNode(WriteEach(g, cs, version).nodes, id).Node? <==> id in WriteEach(g, cs, version).nodes;
    }
  }

  /** Replaying a whole written sequence heals it: two sequential passes leave what one batched
      transaction leaves, edges dropped by the first pass included. */
  lemma {:induction false} SecondPassIsBatched(g: Graph, cs: seq<Subgraph>, u: int, v: int, w: int)
    requires OneClass(AllNodeWrites(cs))
    ensures SameNodes(WriteEach(WriteEach(g, cs, u), cs, w), WriteAll(g, cs, v))
    ensures SameEdges(WriteEach(WriteEach(g, cs, u), cs, w), WriteAll(g, cs, v))
  {
    var once := WriteEach(g, cs, u);
    var twice := WriteEach(once, cs, w);
    var final := g.nodes.Keys + Keys(AllNodeWrites(cs));
    KeysOfEach(g, cs, u);
    forall id
      ensures SeenNode(twice.nodes, id) == SeenNode(WriteAll(g, cs, v).nodes, id)
    {
      NodesOfBatch(g, cs, v, id);
      NodesOfEach(g, cs, u, id);
      NodesOfEach(once, cs, w, id);
      EffectAgain(EffectOn(AllNodeWrites(cs), id), NoEdge, SeenNode(g.nodes, id), LabelsOn(AllNodeWrites(cs), id));
    }
    forall k
      ensures SeenEdge(twice.edges, k) == SeenEdge(WriteAll(g, cs, v).edges, k)
    {
      EdgesOfBatch(g, cs, v, k);
      EdgesOfEach(g, cs, u, k);
      EdgesOfEach(once, cs, w, k);
      TimelyWithin(g.nodes.Keys, cs, k);
      TimelyWithin(final, cs, k);
      assert final + Keys(AllNodeWrites(cs)) == final;
      if Linkable(k, final) {
        WithinAbsorbed(SeenEdge(g.edges, k), TimelyEffect(g.nodes.Keys, cs, k), EffectOn(AllEdgeWrites(cs), k));
      }
    }
  }

  /** So replaying a sequence of timely (in particular closed) subgraphs leaves the graph
      unchanged apart from version stamps. */
  lemma {:induction false} ReplayedSequenceIsHarmless(g: Graph, cs: seq<Subgraph>, v: int, w: int)
    requires OneClass(AllNodeWrites(cs))
    requires Timely(g.nodes.Keys, cs, g.nodes.Keys + Keys(AllNodeWrites(cs))) || Closed(g.nodes.Keys, cs)
    ensures SameNodes(WriteEach(WriteEach(g, cs, v), cs, w), WriteEach(g, cs, v))
    ensures SameEdges(WriteEach(WriteEach(g, cs, v), cs, w), WriteEach(g, cs, v))
  {
    SecondPassIsBatched(g, cs, v, v, w);
    BatchedNodesAreSequential(g, cs, v, v);
    TimelyEdgesAreEqual(g, cs, v, v);
    var twice := WriteEach(WriteEach(g, cs, v), cs, w);
    assert forall id :: SeenNode(twice.nodes, id) == SeenNode(WriteAll(g, cs, v).nodes, id);
    assert forall k :: SeenEdge(twice.edges, k) == SeenEdge(WriteAll(g, cs, v).edges, k);
  }
}
