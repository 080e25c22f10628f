/** The graph after a flush: what the subgraphs it committed, written one at a time, leave. */
module FlushGraph {
  import opened Sequences
  import opened Properties
  import opened Regrouping
  import opened Schemas
  import opened Batching
  import opened Store
  import opened GraphWrites
  import opened Resolver
  import opened Writer
  import opened FlushLaws

  /** `b` has the nodes of `a` and at least its edges, version stamps aside. */
  ghost predicate Tracks(a: Graph, b: Graph) {
    SameNodes(a, b) && EdgesContained(a, b) && WellFormed(a)
  }

  lemma {:induction false} SameKeys(a: Graph, b: Graph)
    requires SameNodes(a, b)
    ensures a.nodes.Keys == b.nodes.Keys
  {
    forall id
      ensures id in a.nodes <==> id in b.nodes
    {
      assert SeenNode(a.nodes, id).Node? <==> SeenNode(b.nodes, id).Node?;
    }
  }

  lemma {:induction false} NodesStepTracks(a: Graph, b: Graph, cs: seq<Subgraph>, v: int, w: int)
    requires SameNodes(a, b) && OneClass(AllNodeWrites(cs))
    ensures SameNodes(WriteEach(a, cs, w), WriteAll(b, cs, v))
  {
    forall id
      ensures SeenNode(WriteEach(a, cs, w).nodes, id) == SeenNode(WriteAll(b, cs, v).nodes, id)
    {
      NodesOfEach(a, cs, w, id);
      NodesOfBatch(b, cs, v, id);
    }
  }

  lemma {:induction false} EdgeStepTracks(a: Graph, b: Graph, cs: seq<Subgraph>, v: int, w: int, k: EdgeKey)
    requires Tracks(a, b) && OneClass(AllNodeWrites(cs))
    requires k in WriteEach(a, cs, w).edges
    ensures k in WriteAll(b, cs, v).edges
    ensures Submap(Erased(WriteEach(a, cs, w).edges[k]), Erased(WriteAll(b, cs, v).edges[k]))
    ensures Linkable(k, WriteEach(a, cs, w).nodes.Keys)
  {
    SameKeys(a, b);
    EdgesOfEach(a, cs, w, k);
    EdgesOfBatch(b, cs, v, k);
    KeysOfEach(a, cs, w);
    TimelyWithin(a.nodes.Keys, cs, k);
    assert SeenEdge(WriteEach(a, cs, w).edges, k).Edge?;
    assert k in a.edges ==> Linkable(k, a.nodes.Keys) && Submap(Erased(a.edges[k]), Erased(b.edges[k]));
    assert SeenEdge(WriteAll(b, cs, v).edges, k).Edge?;
  }

  /** One batched step follows the same subgraphs written one at a time. */
  lemma {:induction false} StepTracks(a: Graph, b: Graph, cs: seq<Subgraph>, v: int, w: int)
    requires Tracks(a, b) && OneClass(AllNodeWrites(cs))
    ensures Tracks(WriteEach(a, cs, w), WriteAll(b, cs, v))
  {
    NodesStepTracks(a, b, cs, v, w);
    forall k | k in WriteEach(a, cs, w).edges
      ensures k in WriteAll(b, cs, v).edges
      ensures Submap(Erased(WriteEach(a, cs, w).edges[k]), Erased(WriteAll(b, cs, v).edges[k]))
      ensures Linkable(k, WriteEach(a, cs, w).nodes.Keys)
    {
      EdgeStepTracks(a, b, cs, v, w, k);
    }
  }

  ghost predicate AllFromResolver(cs: seq<Subgraph>) {
    forall i :: 0 <= i < |cs| ==> FromResolver(cs[i])
  }

  function Neo4j(rejects: (Graph, Batch) -> bool): Database {
    Database(rejects, WriteTx)
  }

  // ---- the desk follows any relation that each written batch keeps --------------------------------

  /** A relation between what was committed and the graph. */
  type Relation = (seq<Subgraph>, Graph) -> bool

  ghost predicate KeptByWrites(rel: Relation, write: (Graph, Batch, int) -> Graph) {
    forall n, g, cs, v :: rel(n, g) && AllFromResolver(cs) ==> rel(n + cs, write(g, GroupedBatch(cs), v))
  }

  ghost predicate Follows(rel: Relation, base: nat, d: Desk) {
    base <= |d.committed| && rel(d.committed[base..], d.graph)
  }

  lemma {:induction false} WrittenFollows(rel: Relation, base: nat, db: Database, d: Desk, cs: seq<Subgraph>)
    requires KeptByWrites(rel, db.write) && Follows(rel, base, d) && AllFromResolver(cs)
    ensures Follows(rel, base, Written(db, d, cs, GroupedBatch(cs)))
  {
    assert rel(d.committed[base..] + cs, db.write(d.graph, GroupedBatch(cs), d.version));
    assert (d.committed + cs)[base..] == d.committed[base..] + cs;
  }

  lemma {:induction false} OneFollows(rel: Relation, base: nat, db: Database, d: Desk, c: Subgraph)
    requires KeptByWrites(rel, db.write) && Follows(rel, base, d) && FromResolver(c)
    ensures Follows(rel, base, CommitOne(db, d, c))
  {
    var next, b := d.(version := d.version + 1), GroupedBatch([c]);
    if EveryResolved([c]) && !Empty(b) && !db.rejects(d.graph, b) {
      WrittenFollows(rel, base, db, next, [c]);
    }
  }

  lemma {:induction false} EachFollows(rel: Relation, base: nat, db: Database, d: Desk, cs: seq<Subgraph>)
    requires KeptByWrites(rel, db.write) && Follows(rel, base, d) && AllFromResolver(cs)
    ensures Follows(rel, base, CommitEach(db, d, cs))
    decreases cs
  {
    if cs != [] {
      OneFollows(rel, base, db, d, cs[0]);
      EachFollows(rel, base, db, CommitOne(db, d, cs[0]), cs[1..]);
    }
  }

  lemma {:induction false} GroupedFollows(rel: Relation, base: nat, db: Database, d: Desk, cs: seq<Subgraph>, b: Batch)
    requires Follows(rel, base, d)
    requires Follows(rel, base, Written(db, d.(version := d.version + 1), cs, b))
    requires Follows(rel, base, CommitEach(db, d.(version := d.version + 1), cs))
    ensures Follows(rel, base, CommitGrouped(db, d, cs, b))
  {
    GroupedCases((e: Desk) => Follows(rel, base, e), db, d, cs, b);
  }

  lemma {:induction false} RoundFollows(rel: Relation, base: nat, db: Database, d: Desk, items: seq<Item>)
    requires KeptByWrites(rel, db.write) && Follows(rel, base, d) && AllFromResolver(ParsedOf(items))
    ensures Follows(rel, base, Round(db, d, items))
  {
    var d', cs := Parked(d, MalformedOf(items)), ParsedOf(items);
    var next := d'.(version := d'.version + 1);
    assert Follows(rel, base, d') && Follows(rel, base, next);
    if cs != [] && EveryResolved(cs) {
      WrittenFollows(rel, base, db, next, cs);
      EachFollows(rel, base, db, next, cs);
      GroupedFollows(rel, base, db, d', cs, GroupedBatch(cs));
    }
  }

  lemma {:induction false} ResolverConcat(items: seq<Item>, rest: seq<Item>)
    ensures AllFromResolver(ParsedOf(items + rest)) <==> AllFromResolver(ParsedOf(items)) && AllFromResolver(ParsedOf(rest))
  {
    ParsedConcat(items, rest);
    var a, b := ParsedOf(items), ParsedOf(rest);
    assert forall i :: 0 <= i < |a| ==> (a + b)[i] == a[i];
    assert forall i :: 0 <= i < |b| ==> (a + b)[|a| + i] == b[i];
  }

  lemma {:induction false} DrainFollows(step: RoundStep, rel: Relation, base: nat, d: Desk, buffer: seq<Item>, size: nat, rounds: nat)
    requires forall d, items :: Follows(rel, base, d) && AllFromResolver(ParsedOf(items)) ==> Follows(rel, base, step(d, items))
    requires Follows(rel, base, d) && AllFromResolver(ParsedOf(buffer))
    ensures Follows(rel, base, Drained(step, d, buffer, size, rounds).0)
    decreases rounds
  {
    var n := Taken(buffer, size);
    if rounds > 0 && n > 0 {
      assert buffer == buffer[..n] + buffer[n..];
      ResolverConcat(buffer[..n], buffer[n..]);
      if n == size {
        DrainFollows(step, rel, base, step(d, buffer[..n]), buffer[n..], size, rounds - 1);
      }
    }
  }

  lemma {:induction false} FlushFollows(rel: Relation, db: Database, d: Desk, buffer: seq<Item>, size: nat, rounds: nat)
    requires KeptByWrites(rel, db.write) && rel([], d.graph) && AllFromResolver(ParsedOf(buffer))
    ensures Follows(rel, |d.committed|, Drained(RoundWith(db), d, buffer, size, rounds).0)
  {
    var base := |d.committed|;
    assert d.committed[base..] == [];
    forall f, items | Follows(rel, base, f) && AllFromResolver(ParsedOf(items))
      ensures Follows(rel, base, RoundWith(db)(f, items))
    {
      RoundFollows(rel, base, db, f, items);
    }
    DrainFollows(RoundWith(db), rel, base, d, buffer, size, rounds);
  }

  // ---- the flushed graph is sequential --------------------------------------------------------------

  /** `g` tracks `n` written one at a time from `start`, and has equal edges when they are closed. */
  ghost function TracksFrom(start: Graph): Relation {
    (n, g) => AllFromResolver(n) && Tracks(WriteEach(start, n, 0), g) && ClosedSame(start, n, g)
  }

  ghost predicate ClosedSame(start: Graph, n: seq<Subgraph>, g: Graph) {
    Closed(start.nodes.Keys, n) ==> SameEdges(WriteEach(start, n, 0), g)
  }

  lemma {:induction false} ClosedSplits(present: set<Id>, a: seq<Subgraph>, b: seq<Subgraph>)
    ensures Closed(present, a + b) <==> Closed(present, a) && Closed(present + Keys(AllNodeWrites(a)), b)
    decreases a
  {
    if a == [] {
      assert a + b == b && present + Keys(AllNodeWrites(a)) == present;
    } else {
      assert (a + b)[0] == a[0] && (a + b)[1..] == a[1..] + b;
      var now := present + Keys(NodeWrites(a[0]));
      ClosedSplits(now, a[1..], b);
      KeysConcat(NodeWrites(a[0]), AllNodeWrites(a[1..]));
      assert now + Keys(AllNodeWrites(a[1..])) == present + Keys(AllNodeWrites(a));
    }
  }

  /** A batched step over closed subgraphs keeps the edges equal. */
  lemma {:induction false} ClosedStepIsEqual(a: Graph, b: Graph, cs: seq<Subgraph>, v: int, w: int)
    requires SameNodes(a, b) && SameEdges(a, b) && OneClass(AllNodeWrites(cs)) && Closed(a.nodes.Keys, cs)
    ensures SameEdges(WriteEach(a, cs, w), WriteAll(b, cs, v))
  {
    var final := a.nodes.Keys + Keys(AllNodeWrites(cs));
    SameKeys(a, b);
    ClosedIsTimely(a.nodes.Keys, cs, final);
    forall k
      ensures SeenEdge(WriteEach(a, cs, w).edges, k) == SeenEdge(WriteAll(b, cs, v).edges, k)
    {
      EdgesOfBatch(b, cs, v, k);
      EdgesOfEach(a, cs, w, k);
      TimelyWithin(a.nodes.Keys, cs, k);
      if Linkable(k, final) {
        TimelyIsAll(a.nodes.Keys, cs, final, k);
      }
    }
  }

  lemma {:induction false} TracksMore(start: Graph, n: seq<Subgraph>, g: Graph, cs: seq<Subgraph>, v: int)
    requires Tracks(WriteEach(start, n, 0), g) && AllFromResolver(cs)
    ensures Tracks(WriteEach(start, n + cs, 0), WriteAll(g, cs, v))
  {
    ResolvedHasOneClass(cs);
    EachJoins(start, n, cs);
    StepTracks(WriteEach(start, n, 0), g, cs, v, |n|);
  }

  lemma {:induction false} EachJoins(start: Graph, n: seq<Subgraph>, cs: seq<Subgraph>)
    ensures WriteEach(start, n + cs, 0) == WriteEach(WriteEach(start, n, 0), cs, |n|)
  {
    FoldConcat(Alone(), start, n, cs, 0);
  }

  lemma {:induction false} ClosedMore(start: Graph, n: seq<Subgraph>, g: Graph, cs: seq<Subgraph>, v: int)
    requires SameNodes(WriteEach(start, n, 0), g) && AllFromResolver(n) && AllFromResolver(cs) && ClosedSame(start, n, g)
    ensures ClosedSame(start, n + cs, WriteAll(g, cs, v))
  {
    ClosedSplits(start.nodes.Keys, n, cs);
    if Closed(start.nodes.Keys, n + cs) {
      ResolvedHasOneClass(n);
      ResolvedHasOneClass(cs);
      KeysOfEach(start, n, 0);
      EachJoins(start, n, cs);
      ClosedStepIsEqual(WriteEach(start, n, 0), g, cs, v, |n|);
    }
  }

  lemma {:induction false} WritesKeepTracking(start: Graph)
    ensures KeptByWrites(TracksFrom(start), WriteTx)
  {
    forall n, g, cs, v | TracksFrom(start)(n, g) && AllFromResolver(cs)
      ensures TracksFrom(start)(n + cs, WriteTx(g, GroupedBatch(cs), v))
    {
      TracksMore(start, n, g, cs, v);
      ClosedMore(start, n, g, cs, v);
    }
  }

  /** Whatever the store refuses, whatever the batch size and the number of rounds: the flushed
      graph has exactly the nodes, and at least the edges, of the committed subgraphs written one
      at a time, and exactly the edges when these are closed. */
  lemma {:induction false} FlushIsSequential(rejects: (Graph, Batch) -> bool, d: Desk, buffer: seq<Item>, size: nat, rounds: nat)
    requires WellFormed(d.graph) && AllFromResolver(ParsedOf(buffer))
    ensures var e := Drained(RoundWith(Neo4j(rejects)), d, buffer, size, rounds).0;
            && |d.committed| <= |e.committed|
            && var n := e.committed[|d.committed|..];
            && Tracks(WriteEach(d.graph, n, 0), e.graph)
            && (Closed(d.graph.nodes.Keys, n) ==> SameEdges(WriteEach(d.graph, n, 0), e.graph))
  {
    WritesKeepTracking(d.graph);
    assert WriteEach(d.graph, [], 0) == d.graph;
    assert Tracks(d.graph, d.graph) && SameEdges(d.graph, d.graph) && AllFromResolver([]);
    assert TracksFrom(d.graph)([], d.graph);
    FlushFollows(TracksFrom(d.graph), Neo4j(rejects), d, buffer, size, rounds);
  }

  // ---- batch size and rounds are invisible ------------------------------------------------------

  /** The subgraphs that write anything. */
  function Writing(cs: seq<Subgraph>): seq<Subgraph> {
    if cs == [] then []
    else (if NodeWrites(cs[0]) != [] || EdgeWrites(cs[0]) != [] then [cs[0]] else []) + Writing(cs[1..])
  }

  lemma {:induction false} WritingConcat(a: seq<Subgraph>, b: seq<Subgraph>)
    ensures Writing(a + b) == Writing(a) + Writing(b)
    decreases a
  {
    if a == [] {
      assert a + b == b;
    } else {
      var first := if NodeWrites(a[0]) != [] || EdgeWrites(a[0]) != [] then [a[0]] else [];
      assert (a + b)[0] == a[0] && (a + b)[1..] == a[1..] + b;
      WritingConcat(a[1..], b);
      ConcatAssociates(first, Writing(a[1..]), Writing(b));
    }
  }

  /** The others make no difference. */
  lemma {:induction false} WritingNodes(cs: seq<Subgraph>)
    ensures AllNodeWrites(Writing(cs)) == AllNodeWrites(cs)
    decreases cs
  {
    if cs != [] {
      var rest := Writing(cs[1..]);
      WritingNodes(cs[1..]);
      assert ([cs[0]] + rest)[1..] == rest && [] + rest == rest;
      assert NodeWrites(cs[0]) == [] ==> AllNodeWrites(cs) == AllNodeWrites(cs[1..]);
    }
  }

  lemma {:induction false} WritingEdges(present: set<Id>, cs: seq<Subgraph>, k: EdgeKey)
    ensures TimelyEffect(present, Writing(cs), k) == TimelyEffect(present, cs, k)
    decreases cs
  {
    if cs != [] {
      var rest := Writing(cs[1..]);
      WritingEdges(present + Keys(NodeWrites(cs[0])), cs[1..], k);
      assert ([cs[0]] + rest)[1..] == rest && [] + rest == rest;
      if NodeWrites(cs[0]) == [] && EdgeWrites(cs[0]) == [] {
        assert present + Keys(NodeWrites(cs[0])) == present;
        assert EffectOn(EdgeWrites(cs[0]), k) == Untouched;
      }
    }
  }

  lemma {:induction false} WritingClosed(present: set<Id>, cs: seq<Subgraph>)
    ensures Closed(present, Writing(cs)) <==> Closed(present, cs)
    decreases cs
  {
    if cs != [] {
      var rest := Writing(cs[1..]);
      WritingClosed(present + Keys(NodeWrites(cs[0])), cs[1..]);
      assert ([cs[0]] + rest)[1..] == rest && [] + rest == rest;
      if NodeWrites(cs[0]) == [] && EdgeWrites(cs[0]) == [] {
        assert present + Keys(NodeWrites(cs[0])) == present;
        assert forall k :: EffectOn(EdgeWrites(cs[0]), k) == Untouched;
      }
    }
  }

  lemma {:induction false} NothingWritten(cs: seq<Subgraph>)
    requires AllNodeWrites(cs) == [] && AllEdgeWrites(cs) == []
    ensures Writing(cs) == []
    decreases cs
  {
    if cs != [] {
      assert NodeWrites(cs[0]) == [] && EdgeWrites(cs[0]) == [];
      NothingWritten(cs[1..]);
    }
  }

  /** What was committed since `base` is `ws`, subgraphs without writes aside. */
  ghost predicate WroteAll(base: nat, d: Desk, ws: seq<Subgraph>) {
    base <= |d.committed| && Writing(d.committed[base..]) == ws
  }

  lemma {:induction false} NeverRefused(db: Database, d: Desk, cs: seq<Subgraph>, b: Batch)
    requires !db.rejects(d.graph, b)
    ensures CommitGrouped(db, d, cs, b).committed == if Empty(b) then d.committed else d.committed + cs
  {
  }

  lemma {:induction false} RoundWritesAll(db: Database, base: nat, d: Desk, items: seq<Item>, ws: seq<Subgraph>)
    requires forall g, b :: !db.rejects(g, b)
    requires WroteAll(base, d, ws) && AllFromResolver(ParsedOf(items))
    ensures WroteAll(base, Round(db, d, items), ws + Writing(ParsedOf(items)))
  {
    var d', cs := Parked(d, MalformedOf(items)), ParsedOf(items);
    ResolvedHasOneClass(cs);
    WritingConcat(d.committed[base..], cs);
    assert (d.committed + cs)[base..] == d.committed[base..] + cs;
    if cs != [] {
      NeverRefused(db, d', cs, GroupedBatch(cs));
      if Empty(GroupedBatch(cs)) {
        GroupedEmpty(AllNodeWrites(cs), true);
        GroupedEmpty(AllEdgeWrites(cs), false);
        NothingWritten(cs);
      }
    }
  }

  /** A relation between the items taken so far and the desk. */
  type Record = (seq<Item>, Desk) -> bool

  lemma {:induction false} DrainRecords(step: RoundStep, rec: Record, d: Desk, buffer: seq<Item>, size: nat, rounds: nat, done: seq<Item>)
    requires forall q, e, items {:trigger rec(q, e), step(e, items)} :: rec(q, e) ==> rec(q + items, step(e, items))
    requires rec(done, d)
    ensures rec(done + TakenBy(buffer, size, rounds), Drained(step, d, buffer, size, rounds).0)
    decreases rounds
  {
    var n := Taken(buffer, size);
    if rounds > 0 && n > 0 {
      var items, rest := buffer[..n], buffer[n..];
      assert rec(done + items, step(d, items));
      if n == size {
        DrainRecords(step, rec, step(d, items), rest, size, rounds - 1, done + items);
        ConcatAssociates(done, items, TakenBy(rest, size, rounds - 1));
      }
    } else {
      assert done + [] == done;
    }
  }

  /** What was committed since `base` is what of the items writes anything. */
  ghost function Committing(base: nat): Record {
    (q, e) => AllFromResolver(ParsedOf(q)) ==> WroteAll(base, e, Writing(ParsedOf(q)))
  }

  lemma {:induction false} RoundRecords(db: Database, base: nat, q: seq<Item>, e: Desk, items: seq<Item>)
    requires (forall g, b :: !db.rejects(g, b)) && Committing(base)(q, e)
    ensures Committing(base)(q + items, Round(db, e, items))
  {
    ResolverConcat(q, items);
    ParsedConcat(q, items);
    WritingConcat(ParsedOf(q), ParsedOf(items));
    if AllFromResolver(ParsedOf(q + items)) {
      RoundWritesAll(db, base, e, items, Writing(ParsedOf(q)));
    }
  }

  /** Two lists that differ in subgraphs without writes alone leave the same graph. */
  lemma {:induction false} SameWritingSameNode(g: Graph, a: seq<Subgraph>, b: seq<Subgraph>, id: Id)
    requires Writing(a) == Writing(b) && OneClass(AllNodeWrites(a))
    ensures SeenNode(WriteEach(g, a, 0).nodes, id) == SeenNode(WriteEach(g, b, 0).nodes, id)
  {
    WritingNodes(a);
    WritingNodes(b);
    NodesOfEach(g, a, 0, id);
    NodesOfEach(g, b, 0, id);
  }

  lemma {:induction false} SameWritingSameEdge(g: Graph, a: seq<Subgraph>, b: seq<Subgraph>, k: EdgeKey)
    requires Writing(a) == Writing(b) && OneClass(AllNodeWrites(a))
    ensures SeenEdge(WriteEach(g, a, 0).edges, k) == SeenEdge(WriteEach(g, b, 0).edges, k)
  {
    WritingNodes(a);
    WritingNodes(b);
    WritingEdges(g.nodes.Keys, a, k);
    WritingEdges(g.nodes.Keys, b, k);
    EdgesOfEach(g, a, 0, k);
    EdgesOfEach(g, b, 0, k);
  }

  /** When the store refuses nothing, the flushed graph is that of all items taken, written one at
      a time in buffer order, with the same nodes, no fewer edges, and the same edges when the
      subgraphs are closed: batch size and rounds cannot be told from the result. */
  lemma {:induction false} BatchingIsInvisible(rejects: (Graph, Batch) -> bool, d: Desk, buffer: seq<Item>, size: nat, rounds: nat)
    requires WellFormed(d.graph) && AllFromResolver(ParsedOf(buffer))
    requires forall g, b :: !rejects(g, b)
    ensures var e := Drained(RoundWith(Neo4j(rejects)), d, buffer, size, rounds).0;
            var taken := ParsedOf(TakenBy(buffer, size, rounds));
            var each := WriteEach(d.graph, taken, 0);
            SameNodes(each, e.graph) && EdgesContained(each, e.graph) && (Closed(d.graph.nodes.Keys, taken) ==> SameEdges(each, e.graph))
  {
    var base, step := |d.committed|, RoundWith(Neo4j(rejects));
    var e, taken := Drained(step, d, buffer, size, rounds).0, ParsedOf(TakenBy(buffer, size, rounds));
    FlushIsSequential(rejects, d, buffer, size, rounds);
    assert d.committed[base..] == [];
    forall q, f, items | Committing(base)(q, f)
      ensures Committing(base)(q + items, step(f, items))
    {
      RoundRecords(Neo4j(rejects), base, q, f, items);
    }
    DrainRecords(step, Committing(base), d, buffer, size, rounds, []);
    assert [] + TakenBy(buffer, size, rounds) == TakenBy(buffer, size, rounds);
    TakenFromResolver(step, d, buffer, size, rounds);
    ResolvedHasOneClass(taken);
    CarriedOver(d.graph, taken, e.committed[base..], e.graph);
    WritingClosed(d.graph.nodes.Keys, taken);
    WritingClosed(d.graph.nodes.Keys, e.committed[base..]);
  }

  lemma {:induction false} CarriedOver(start: Graph, taken: seq<Subgraph>, n: seq<Subgraph>, g: Graph)
    requires Writing(taken) == Writing(n) && OneClass(AllNodeWrites(taken)) && Tracks(WriteEach(start, n, 0), g)
    ensures SameNodes(WriteEach(start, taken, 0), g) && EdgesContained(WriteEach(start, taken, 0), g)
    ensures SameEdges(WriteEach(start, n, 0), g) ==> SameEdges(WriteEach(start, taken, 0), g)
  {
    var each, other := WriteEach(start, taken, 0), WriteEach(start, n, 0);
    forall id
      ensures SeenNode(each.nodes, id) == SeenNode(g.nodes, id)
    {
      SameWritingSameNode(start, taken, n, id);
    }
    forall k
      ensures SeenEdge(each.edges, k) == SeenEdge(other.edges, k)
    {
      SameWritingSameEdge(start, taken, n, k);
    }
    SeenContained(each, other, g);
  }

  lemma {:induction false} SeenContained(a: Graph, b: Graph, g: Graph)
    requires SameEdges(a, b) && EdgesContained(b, g)
    ensures EdgesContained(a, g)
  {
    forall k | k in a.edges
      ensures k in g.edges && Submap(Erased(a.edges[k]), Erased(g.edges[k]))
    {
      assert SeenEdge(a.edges, k) == SeenEdge(b.edges, k);
    }
  }

  lemma {:induction false} TakenFromResolver(step: RoundStep, d: Desk, buffer: seq<Item>, size: nat, rounds: nat)
    requires AllFromResolver(ParsedOf(buffer))
    ensures AllFromResolver(ParsedOf(TakenBy(buffer, size, rounds)))
    decreases rounds
  {
    var n := Taken(buffer, size);
    if rounds > 0 && n > 0 {
      var items, rest := buffer[..n], buffer[n..];
      assert buffer == items + rest;
      ResolverConcat(items, rest);
      if n == size {
        TakenFromResolver(step, d, rest, size, rounds - 1);
        ResolverConcat(items, TakenBy(rest, size, rounds - 1));
      }
    }
  }
}
