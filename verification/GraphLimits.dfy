/** Inputs at which batching and sequential writing part ways. */
module GraphLimits {
  import opened Wrappers
  import opened Properties
  import opened Regrouping
  import opened Schemas
  import opened Batching
  import opened Store
  import opened GraphWrites

  const PROVENANCE := Provenance("doc1", None, None, None, "v1", 1.0, FromDocument)

  /** P-101 is part of U-200, but the unit's own node only comes with the next subgraph. */
  const EARLY := Subgraph("doc1", "h1", [CandidateNode(Equipment, "P-101", map[], Some("equip:P-101"))],
                          [CandidateEdge(PartOf, "P-101", "equip:U-200", PROVENANCE, map[])])

  const LATE := Subgraph("doc2", "h2", [CandidateNode(Equipment, "U-200", map[], Some("equip:U-200"))], [])

  const EARLY_EDGE := EdgeKey("equip:P-101", PartOf, HashOf(PROVENANCE), "equip:U-200")

  lemma {:induction false} OneNode(c: Subgraph)
    requires |c.nodes| == 1
    ensures NodeWrites(c) == AllNodeWrites([c]) == [NodeWriteOf(c.nodes[0])]
  {
    assert c.nodes[1..] == [] && NodeWritesOf([]) == [];
    assert [c][1..] == [] && AllNodeWrites([]) == [];
  }

  lemma {:induction false} KeysOfOne<C, K>(w: Write<C, K>)
    ensures Keys([w]) == {w.key}
  {
    assert [w][..0] == [];
  }

  lemma {:induction false} EarlyWrites()
    ensures EdgeWrites(EARLY) == [EdgeWriteOf(EARLY.edges[0], IdMap(EARLY))] && EdgeWrites(LATE) == []
    ensures EdgeWriteOf(EARLY.edges[0], IdMap(EARLY)).key == EARLY_EDGE
  {
    assert EARLY.edges[1..] == [] && EdgeWritesOf([], IdMap(EARLY)) == [];
    assert EARLY.nodes[1..] == [];
    var ids := map["P-101" := "equip:P-101"];
    assert Extended(map[]["P-101" := "equip:P-101"], []) == ids;
    assert IdMap(EARLY) == ids;
  }

  /** MATCH drops the edge silently when its subgraph is written before the unit's node exists;
      in one batch both nodes come first and the edge is stored. */
  lemma {:induction false} EarlyEdgeIsDropped(v: int, w: int)
    ensures EARLY_EDGE in WriteAll(Graph(map[], map[]), [EARLY, LATE], v).edges
    ensures EARLY_EDGE !in WriteEach(Graph(map[], map[]), [EARLY, LATE], w).edges
  {
    var cs := [EARLY, LATE];
    var none: set<Id> := {};
    var a, b := NodeWriteOf(EARLY.nodes[0]), NodeWriteOf(LATE.nodes[0]);
    var edge := EdgeWriteOf(EARLY.edges[0], IdMap(EARLY));
    OneNode(EARLY);
    OneNode(LATE);
    EarlyWrites();
    KeysOfOne(a);
    KeysOfOne(b);
    KeysOfOne(edge);
    KeysConcat([a], [b]);
    assert cs[1..] == [LATE] && [LATE][1..] == [];
    assert AllEdgeWrites([LATE]) == [] + AllEdgeWrites([]) == [];
    assert AllEdgeWrites(cs) == [edge] + [] == [edge];
    assert AllNodeWrites(cs) == [a] + [b];
    assert a.key == "equip:P-101" && b.key == "equip:U-200";
    assert none + Keys([a]) == {"equip:P-101"};
    assert Graph(map[], map[]).nodes.Keys == none;
    assert !WrittenInTime({"equip:P-101"}, [LATE], EARLY_EDGE);
    assert !WrittenInTime(none, cs, EARLY_EDGE);
    StoredEdges(Graph(map[], map[]), cs, v, w, EARLY_EDGE);
  }

  // ---- one id under two labels --------------------------------------------------------------------

  lemma {:induction false} FirstWrite(w: NodeWrite)
    ensures Grouped([w], true) == [Group(w.cls, [Row(w.key, w.props)])]
  {
    var none: seq<Group<NodeType, Id>> := [];
    assert [w][..0] == [];
    assert Grouped([w], true) == AddWrite(none, w, true);
    assert RowsOf(none, w.cls) == [] && RowAt([], w.key) == 0;
    assert Upsert([], Row(w.key, w.props)) == [] + [Row(w.key, w.props)] == [Row(w.key, w.props)];
    var g := Group(w.cls, [Row(w.key, w.props)]);
    assert none + [g] == [g];
    assert SetRows(none, w.cls, g.rows) == [g];
  }

  lemma {:induction false} SecondWrite(a: NodeWrite, b: NodeWrite)
    requires a.cls != b.cls
    ensures Grouped([a, b], true) == [Group(a.cls, [Row(a.key, a.props)]), Group(b.cls, [Row(b.key, b.props)])]
  {
    var e, f := Group(a.cls, [Row(a.key, a.props)]), Group(b.cls, [Row(b.key, b.props)]);
    FirstWrite(a);
    GroupedSnoc([a], b, true);
    assert [a] + [b] == [a, b];
    assert GroupAt([e], b.cls) == 1 + GroupAt([e][1..], b.cls) == 1;
    assert RowAt([], b.key) == 0 && Upsert([], Row(b.key, b.props)) == [] + f.rows == f.rows;
    assert [e] + [f] == [e, f];
    assert SetRows([e], b.cls, f.rows) == [e, f];
  }

  lemma {:induction false} JoinsFirst(a: NodeWrite, f: Group<NodeType, Id>, c: NodeWrite)
    requires a.key == c.key && a.cls == c.cls
    ensures AddWrite([Group(a.cls, [Row(a.key, a.props)]), f], c, true) == [Group(a.cls, [Row(a.key, a.props + c.props)]), f]
  {
    var e, g := Group(a.cls, [Row(a.key, a.props)]), Group(a.cls, [Row(a.key, a.props + c.props)]);
    assert GroupAt([e, f], a.cls) == 0 && RowAt(e.rows, a.key) == 0;
    assert Upsert(e.rows, Row(a.key, c.props)) == e.rows[0 := Row(a.key, a.props + c.props)] == g.rows;
    assert [e, f][0 := g] == [g, f];
    assert SetRows([e, f], a.cls, g.rows) == [g, f];
  }

  /** A, B and C write one id, B under another label: C joins A's row, ahead of B's. */
  lemma {:induction false} RegroupedClash(a: NodeWrite, b: NodeWrite, c: NodeWrite)
    requires a.key == b.key == c.key && a.cls == c.cls != b.cls
    ensures Grouped([a, b, c], true)
         == [Group(a.cls, [Row(a.key, a.props + c.props)]), Group(b.cls, [Row(a.key, b.props)])]
  {
    SecondWrite(a, b);
    JoinsFirst(a, Group(b.cls, [Row(b.key, b.props)]), c);
    GroupedSnoc([a, b], c, true);
    assert [a, b] + [c] == [a, b, c];
  }

  lemma {:induction false} FlatOfTwo(c: NodeType, d: NodeType, k: Id, p: Props, q: Props)
    ensures Flat([Group(c, [Row(k, p)]), Group(d, [Row(k, q)])]) == [Write(c, k, p), Write(d, k, q)]
  {
    var e, f := Group(c, [Row(k, p)]), Group(d, [Row(k, q)]);
    FlatSnoc([e, f], 0);
    FlatSnoc([e, f], 1);
    TaggedSnoc(c, e.rows, 0);
    TaggedSnoc(d, f.rows, 0);
    assert [e, f][..0] == [] && [e, f][..2] == [e, f];
    assert e.rows[..0] == [] && e.rows[..1] == e.rows && f.rows[..0] == [] && f.rows[..1] == f.rows;
  }

  lemma {:induction false} EffectOfTwo(a: NodeWrite, b: NodeWrite)
    requires a.key == b.key
    ensures EffectOn([a, b], a.key) == Sets(a.props + b.props)
  {
    assert [a, b] == [a] + [b];
    EffectOnConcat([a], [b], a.key);
    SingleEffect(a, a.key);
    SingleEffect(b, a.key);
  }

  lemma {:induction false} FoldThree(write: (Graph, Subgraph, int) -> Graph, g: Graph, a: Subgraph, b: Subgraph, c: Subgraph, v: int)
    ensures Fold(write, g, [a, b, c], v) == write(write(write(g, a, v), b, v + 1), c, v + 2)
  {
    assert [a, b, c][1..] == [b, c] && [b, c][1..] == [c] && [c][1..] == [];
    assert Fold(write, write(write(g, a, v), b, v + 1), [c], v + 2) == write(write(write(g, a, v), b, v + 1), c, v + 2);
  }

  predicate OneNodeOf(c: Subgraph, t: NodeType, id: Id) {
    |c.nodes| == 1 && c.nodes[0].nodeType == t && IdOf(c.nodes[0]) == id
  }

  function PropsIn(c: Subgraph): Props
    requires |c.nodes| == 1
  {
    Clean(NodeProps(c.nodes[0]))
  }

  lemma {:induction false} ClashInBatch(a: Subgraph, b: Subgraph, c: Subgraph, t: NodeType, u: NodeType, id: Id, v: int)
    requires t != u && OneNodeOf(a, t, id) && OneNodeOf(b, u, id) && OneNodeOf(c, t, id)
    ensures var seen := SeenNode(WriteAll(Graph(map[], map[]), [a, b, c], v).nodes, id);
            seen.Node? && seen.props == Erased(PropsIn(a) + PropsIn(c) + PropsIn(b))
  {
    var x: NodeWrite, y: NodeWrite, z: NodeWrite := NodeWriteOf(a.nodes[0]), NodeWriteOf(b.nodes[0]), NodeWriteOf(c.nodes[0]);
    OneNode(a);
    OneNode(b);
    OneNode(c);
    assert [a, b, c][1..] == [b, c] && [b, c][1..] == [c];
    assert AllNodeWrites([a, b, c]) == [x] + ([y] + [z]) == [x, y, z];
    RegroupedClash(x, y, z);
    FlatOfTwo(t, u, id, x.props + z.props, y.props);
    var first: NodeWrite, second: NodeWrite := Write(t, id, x.props + z.props), Write(u, id, y.props);
    MergeNodesAt(map[], [first, second], v, id);
    EffectOfTwo(first, second);
  }

  lemma {:induction false} AfterOne(g: Graph, c: Subgraph, t: NodeType, id: Id, v: int)
    requires OneNodeOf(c, t, id)
    ensures SeenNode(Alone()(g, c, v).nodes, id) == WithNode(SeenNode(g.nodes, id), {t}, Sets(PropsIn(c)))
  {
    OneNode(c);
    var w := NodeWriteOf(c.nodes[0]);
    NodesOfBatch(g, [c], v, id);
    SingleEffect(w, id);
    assert [w][..0] == [];
  }

  lemma {:induction false} ClashInSequence(a: Subgraph, b: Subgraph, c: Subgraph, t: NodeType, u: NodeType, id: Id, v: int)
    requires OneNodeOf(a, t, id) && OneNodeOf(b, u, id) && OneNodeOf(c, t, id)
    ensures var seen := SeenNode(WriteEach(Graph(map[], map[]), [a, b, c], v).nodes, id);
            seen.Node? && seen.props == Erased(PropsIn(a) + PropsIn(b) + PropsIn(c))
  {
    var write, g := Alone(), Graph(map[], map[]);
    FoldThree(write, g, a, b, c, v);
    AfterOne(g, a, t, id, v);
    AfterOne(write(g, a, v), b, u, id, v + 1);
    AfterOne(write(write(g, a, v), b, v + 1), c, t, id, v + 2);
    ErasedMerge(PropsIn(a), PropsIn(b));
    ErasedMerge(PropsIn(a) + PropsIn(b), PropsIn(c));
  }

  /** Why an id must determine its label: when one id comes under label t, then u, then t again,
      the batch agrees with the sequence on that node exactly when the last two writes agree on
      every property they share. */
  lemma {:induction false} ClashingLabelsPartWays(a: Subgraph, b: Subgraph, c: Subgraph, t: NodeType, u: NodeType, id: Id, v: int, w: int)
    requires t != u && OneNodeOf(a, t, id) && OneNodeOf(b, u, id) && OneNodeOf(c, t, id)
    ensures var batched := SeenNode(WriteAll(Graph(map[], map[]), [a, b, c], v).nodes, id);
            var sequential := SeenNode(WriteEach(Graph(map[], map[]), [a, b, c], w).nodes, id);
            batched.Node? && sequential.Node? &&
            (batched.props == sequential.props <==>
             forall key :: key in Erased(PropsIn(b)) && key in Erased(PropsIn(c)) ==> PropsIn(b)[key] == PropsIn(c)[key])
  {
    ClashInBatch(a, b, c, t, u, id, v);
    ClashInSequence(a, b, c, t, u, id, w);
    SwappedMerge(PropsIn(a), PropsIn(b), PropsIn(c));
  }

  lemma {:induction false} SwappedMerge(p: Props, q: Props, r: Props)
    ensures Erased(p + r + q) == Erased(p + q + r)
       <==> forall key :: key in Erased(q) && key in Erased(r) ==> q[key] == r[key]
  {
    var x, y := Erased(p + r + q), Erased(p + q + r);
    if forall key :: key in Erased(q) && key in Erased(r) ==> q[key] == r[key] {
      assert x.Keys == y.Keys;
      assert forall key :: key in x ==> x[key] == y[key];
    } else {
      var key :| key in Erased(q) && key in Erased(r) && q[key] != r[key];
      assert x[key] == q[key] && y[key] == r[key];
    }
  }
}
